/** Internal rate of return by bisection on [-0.95, 2]. */
module Irr {
  import opened Numbers

  const LOW := -0.95
  const HIGH := 2.0

  /** `cashflows.reduce((a, c, t) => a + c / Math.pow(1 + r, t), 0)`. */
  function Npv(cf: seq<real>, r: real): real
    requires r > -1.0
  {
    if |cf| == 0 then 0.0
    else
      var t := |cf| - 1;
      PowPositive(1.0 + r, t);
      Npv(cf[..t], r) + Div(cf[t], Pow(1.0 + r, t))
  }

  /** Where the search stands: the bracket, the value remembered at its lower end, and an answer once one is found. */
  datatype Search = Search(lo: real, hi: real, flo: real, found: Option<real>) {
    ghost predicate InRange() {
      && LOW <= lo < hi <= HIGH
      && (found.Some? ==> found.value == (lo + hi) / 2.0)
    }

    function Answer(): (r: real)
      ensures InRange() ==> lo < r < hi
    {
      found.GetOr((lo + hi) / 2.0)
    }
  }

  function Start(cf: seq<real>): Search { Search(LOW, HIGH, Npv(cf, LOW), None) }

  function Step(cf: seq<real>, s: Search): (n: Search)
    requires s.InRange()
    ensures n.InRange()
  {
    if s.found.Some? then s
    else
      var mid := (s.lo + s.hi) / 2.0;
      var f := Npv(cf, mid);
      if Abs(f) < 1.0 then s.(found := Some(mid))
      else if s.flo * f < 0.0 then s.(hi := mid)
      else s.(lo := mid, flo := f)
  }

  function After(cf: seq<real>, k: nat): (s: Search)
    ensures s.InRange()
  {
    if k == 0 then Start(cf) else Step(cf, After(cf, k - 1))
  }

  /** No sign change between the ends of the range. */
  predicate NoSignChange(cf: seq<real>) { Npv(cf, LOW) * Npv(cf, HIGH) > 0.0 }

  /** What a hundred steps of the search answer, if there is a sign change to search for. */
  function Rate(cf: seq<real>): Option<real> { if NoSignChange(cf) then None else Some(After(cf, 100).Answer()) }

  method InternalRate(cf: seq<real>) returns (r: Option<real>)
    ensures r == Rate(cf)
  {
    hide Npv;
    var lo, hi := LOW, HIGH;
    var flo := Npv(cf, lo);
    var fhi := Npv(cf, hi);
    if flo * fhi > 0.0 { return None; }
    for i := 0 to 100
      invariant After(cf, i) == Search(lo, hi, flo, None)
    {
      var mid := (lo + hi) / 2.0;
      var f := Npv(cf, mid);
      if Abs(f) < 1.0 {
        FoundStays(cf, i + 1, 100);
        return Some(mid);
      }
      if flo * f < 0.0 { hi := mid; } else { lo, flo := mid, f; }
    }
    r := Some((lo + hi) / 2.0);
  }

  lemma {:induction false} FoundStays(cf: seq<real>, k: nat, n: nat)
    requires k <= n && After(cf, k).found.Some?
    ensures After(cf, n) == After(cf, k)
  {
    hide Npv;
    if k < n { FoundStays(cf, k, n - 1); }
  }

  // ---------------------------------------------------------------- what the bracket promises

  /** The ends do not share a strict sign, so a continuous curve crosses zero between them. */
  ghost predicate Straddles(cf: seq<real>, s: Search)
    requires s.InRange()
  {
    Npv(cf, s.lo) * Npv(cf, s.hi) <= 0.0
  }

  /** The one way to lose the root: it sits exactly at -95%, where the first comparison cannot see it. */
  predicate RootMissed(cf: seq<real>) {
    var f := Npv(cf, (LOW + HIGH) / 2.0);
    Npv(cf, LOW) == 0.0 && Abs(f) >= 1.0 && f * Npv(cf, HIGH) > 0.0
  }

  lemma SignsCompose(a: real, f: real, b: real)
    requires a != 0.0 && a * b <= 0.0
    ensures a * f < 0.0 || f * b <= 0.0
  {
    if a > 0.0 {
      if b > 0.0 { MulStrict(0.0, a, b); }
      if f >= 0.0 { MulNonNegative(f, -b); } else { MulStrict(f, 0.0, a); }
    } else {
      if b < 0.0 { MulStrict(0.0, -a, -b); }
      if f <= 0.0 { MulNonNegative(-f, b); } else { MulStrict(0.0, f, -a); }
    }
  }

  /** One step from an open bracket: it may answer at the middle, and otherwise keeps one half. */
  lemma StepShape(cf: seq<real>, s: Search)
    requires s.InRange() && s.found.None?
    ensures var n, mid := Step(cf, s), (s.lo + s.hi) / 2.0;
            var f := Npv(cf, mid);
            || (n == s.(found := Some(mid)) && Abs(f) < 1.0)
            || (n == s.(hi := mid) && s.flo * f < 0.0)
            || (n == s.(lo := mid, flo := f) && !(s.flo * f < 0.0) && f != 0.0)
  {
    hide Npv;
  }

  /** A step keeps a straddle whose lower value is not zero. */
  lemma StepStraddles(cf: seq<real>, s: Search)
    requires s.InRange() && s.found.None? && s.flo == Npv(cf, s.lo) && s.flo != 0.0 && Straddles(cf, s)
    ensures var n := Step(cf, s); Straddles(cf, n) && n.flo == Npv(cf, n.lo) && (n.found.Some? || n.flo != 0.0)
  {
    StepShape(cf, s);
    SignsCompose(s.flo, Npv(cf, (s.lo + s.hi) / 2.0), Npv(cf, s.hi));
    hide Npv, Step;
  }

  /** From a zero at the lower end, the first step either answers or moves the lower end up to the middle. */
  lemma FirstStepFromZero(cf: seq<real>)
    requires Npv(cf, LOW) == 0.0 && !RootMissed(cf)
    ensures var n := Step(cf, Start(cf)); Straddles(cf, n) && n.flo == Npv(cf, n.lo) && (n.found.Some? || n.flo != 0.0)
  {
    StepShape(cf, Start(cf));
    hide Npv, Step;
    assert 0.0 * Npv(cf, (LOW + HIGH) / 2.0) == 0.0;
    assert 0.0 * Npv(cf, HIGH) == 0.0;
  }

  /** Once past a zero at the lower end, every step keeps the straddle. */
  lemma {:induction false} StraddleKept(cf: seq<real>, k: nat)
    requires !NoSignChange(cf) && !RootMissed(cf)
    ensures Straddles(cf, After(cf, k))
    ensures After(cf, k).flo == Npv(cf, After(cf, k).lo)
    ensures Npv(cf, LOW) != 0.0 || k > 0 ==> After(cf, k).found.Some? || After(cf, k).flo != 0.0
  {
    hide Npv, RootMissed;
    if k > 0 {
      StraddleKept(cf, k - 1);
      var s := After(cf, k - 1);
      if s.found.None? {
        if s.flo != 0.0 {
          StepStraddles(cf, s);
        } else {
          FirstStepFromZero(cf);
        }
        hide Step;
      }
    }
  }

  /** Every bracket the search holds straddles a sign change, exactly when no root was missed at -95%. */
  lemma BracketsStraddle(cf: seq<real>)
    requires !NoSignChange(cf)
    ensures (forall k: nat :: Straddles(cf, After(cf, k))) <==> !RootMissed(cf)
  {
    hide Npv;
    if RootMissed(cf) {
      var s := Start(cf);
      assert After(cf, 1) == Step(cf, After(cf, 0));
      assert s.flo * Npv(cf, (LOW + HIGH) / 2.0) == 0.0;
      assert !Straddles(cf, After(cf, 1));
    } else {
      forall k: nat ensures Straddles(cf, After(cf, k)) { StraddleKept(cf, k); }
    }
  }

  lemma StepHalves(cf: seq<real>, s: Search)
    requires s.InRange()
    ensures Step(cf, s).found.None? ==> s.found.None? && Step(cf, s).hi - Step(cf, s).lo == (s.hi - s.lo) / 2.0
  {
    hide Npv;
  }

  lemma HalfWidth(width: real, p: real)
    ensures width / 2.0 * (2.0 * p) == width * p
  {
  }

  lemma {:induction false} BracketHalves(cf: seq<real>, k: nat)
    ensures After(cf, k).found.None? ==> (After(cf, k).hi - After(cf, k).lo) * Pow(2.0, k) == 2.95
  {
    hide Npv, Step;
    if k > 0 {
      BracketHalves(cf, k - 1);
      var s := After(cf, k - 1);
      StepHalves(cf, s);
      assert After(cf, k) == Step(cf, s);
      PowStep(2.0, k);
      hide After;
      HalfWidth(s.hi - s.lo, Pow(2.0, k - 1));
      var n := Step(cf, s);
      if n.found.None? { assert (n.hi - n.lo) * (2.0 * Pow(2.0, k - 1)) == 2.95; }
    } else {
      PowZero(2.0);
    }
  }

  lemma {:induction false} FoundIsSmall(cf: seq<real>, k: nat)
    ensures After(cf, k).found.Some? ==> Abs(Npv(cf, After(cf, k).Answer())) < 1.0
  {
    hide Npv;
    if k > 0 { FoundIsSmall(cf, k - 1); }
  }

  /** There is a rate unless the cashflow is worth something of one sign at -95% and at 200%. */
  lemma RateIsAnswer(cf: seq<real>)
    ensures Rate(cf) == if Npv(cf, -0.95) * Npv(cf, 2.0) > 0.0 then None else Some(After(cf, 100).Answer())
  {
    hide Npv, After;
  }

  lemma AnswerIsRoot(cf: seq<real>)
    requires !NoSignChange(cf) && !RootMissed(cf)
    ensures var s := After(cf, 100);
            && Straddles(cf, s)
            && s.lo < s.Answer() < s.hi && s.Answer() == (s.lo + s.hi) / 2.0
            && (Abs(Npv(cf, s.Answer())) < 1.0 || (s.hi - s.lo) * Pow(2.0, 100) == 2.95)
  {
    hide Npv, Pow, After, RootMissed;
    StraddleKept(cf, 100);
    BracketHalves(cf, 100);
    FoundIsSmall(cf, 100);
  }

  /**
   * What a returned rate is worth when no root was missed: the cashflow discounted at it
   * comes to less than a pound, or it is the middle of a bracket 2.95 / 2^100 wide that straddles a sign change.
   */
  lemma RateIsRoot(cf: seq<real>)
    requires Rate(cf).Some? && !RootMissed(cf)
    ensures var s, y := After(cf, 100), Rate(cf).value;
            && Straddles(cf, s)
            && s.lo < y < s.hi && y == (s.lo + s.hi) / 2.0
            && (Abs(Npv(cf, y)) < 1.0 || (s.hi - s.lo) * Pow(2.0, 100) == 2.95)
  {
    RateIsAnswer(cf);
    hide *;
    SignsShared(cf);
    AnswerIsRoot(cf);
  }

  lemma SignsShared(cf: seq<real>)
    ensures NoSignChange(cf) <==> Npv(cf, -0.95) * Npv(cf, 2.0) > 0.0
  {
    hide Npv;
  }

  // ---------------------------------------------------------------- an outlay followed by receipts

  /** Nothing is paid out after the first period, and something comes back. */
  ghost predicate Conventional(cf: seq<real>) {
    && (forall t :: 0 < t < |cf| ==> cf[t] >= 0.0)
    && exists t :: 0 < t < |cf| && cf[t] > 0.0
  }

  lemma LargerDivisor(c: real, p: real, q: real)
    requires 0.0 <= c && 0.0 < p < q
    ensures Div(c, q) <= Div(c, p) && (c > 0.0 ==> Div(c, q) < Div(c, p))
  {
    hide Div;
    DivLaw(c, p);
    DivLaw(c, q);
    DivPositive(c, p);
    DivPositive(c, q);
    SmallerQuotient(Div(c, p), p, Div(c, q), q, c);
  }

  lemma SmallerQuotient(x: real, p: real, y: real, q: real, c: real)
    requires 0.0 < p < q && 0.0 <= x && 0.0 <= y && x * p == c && y * q == c && (c > 0.0 ==> 0.0 < y)
    ensures y <= x && (c > 0.0 ==> y < x)
  {
    MulMono(p, q, y);
    if x < y { MulStrict(x, y, p); }
    if c > 0.0 { MulStrict(p, q, y); }
  }

  /** The higher the rate, the less receipts are worth. */
  lemma {:induction false} NpvFalls(cf: seq<real>, r: real, q: real)
    requires -1.0 < r < q && forall t :: 0 < t < |cf| ==> cf[t] >= 0.0
    ensures Npv(cf, q) <= Npv(cf, r)
    ensures (exists t :: 0 < t < |cf| && cf[t] > 0.0) ==> Npv(cf, q) < Npv(cf, r)
  {
    if |cf| > 0 {
      var n := |cf| - 1;
      NpvFalls(cf[..n], r, q);
      LastFalls(cf, r, q);
      NpvUnfolds(cf, r);
      NpvUnfolds(cf, q);
      hide Npv, Div, Pow;
      if t :| 0 < t < |cf| && cf[t] > 0.0 {
        assert t < n ==> cf[..n][t] > 0.0;
      }
    }
  }

  lemma NpvUnfolds(cf: seq<real>, r: real)
    requires |cf| > 0 && r > -1.0
    ensures Pow(1.0 + r, |cf| - 1) > 0.0
    ensures Npv(cf, r) == Npv(cf[..|cf| - 1], r) + Div(cf[|cf| - 1], Pow(1.0 + r, |cf| - 1))
  {
    PowPositive(1.0 + r, |cf| - 1);
    hide Div;
  }

  lemma LastFalls(cf: seq<real>, r: real, q: real)
    requires -1.0 < r < q && |cf| > 0 && (|cf| > 1 ==> cf[|cf| - 1] >= 0.0)
    ensures var n, c := |cf| - 1, cf[|cf| - 1];
            && Pow(1.0 + r, n) > 0.0 && Pow(1.0 + q, n) > 0.0
            && Div(c, Pow(1.0 + q, n)) <= Div(c, Pow(1.0 + r, n))
            && (n > 0 && c > 0.0 ==> Div(c, Pow(1.0 + q, n)) < Div(c, Pow(1.0 + r, n)))
  {
    var n, c := |cf| - 1, cf[|cf| - 1];
    PowIncreasing(1.0 + r, 1.0 + q, n);
    PowPositive(1.0 + q, n);
    if n == 0 {
      PowZero(1.0 + r);
      PowZero(1.0 + q);
    } else {
      hide Div, Pow;
      LargerDivisor(c, Pow(1.0 + r, n), Pow(1.0 + q, n));
    }
  }

  /** The root is missed exactly when it is -95% itself and the middle of the range is not already within a pound. */
  lemma MissedExactly(cf: seq<real>, root: real)
    requires Conventional(cf) && LOW <= root <= HIGH && Npv(cf, root) == 0.0
    ensures !NoSignChange(cf)
    ensures RootMissed(cf) <==> root == LOW && Abs(Npv(cf, (LOW + HIGH) / 2.0)) >= 1.0
  {
    var mid := (LOW + HIGH) / 2.0;
    if LOW < root { NpvFalls(cf, LOW, root); }
    if root < HIGH { NpvFalls(cf, root, HIGH); }
    NpvFalls(cf, LOW, mid);
    NpvFalls(cf, mid, HIGH);
    hide Npv;
    var a, f, b := Npv(cf, LOW), Npv(cf, mid), Npv(cf, HIGH);
    if a > 0.0 && b < 0.0 { MulStrict(b, 0.0, a); }
    if f < 0.0 && b < 0.0 { MulStrict(0.0, -f, -b); }
  }

  /** Straddling a fall, a bracket holds the place where it crosses zero. */
  lemma StraddleHoldsRoot(cf: seq<real>, s: Search, root: real)
    requires Conventional(cf) && s.InRange() && Straddles(cf, s) && LOW <= root <= HIGH && Npv(cf, root) == 0.0
    ensures s.lo <= root <= s.hi
  {
    NpvFalls(cf, s.lo, s.hi);
    if root < s.lo { NpvFalls(cf, root, s.lo); }
    if s.hi < root { NpvFalls(cf, s.hi, root); }
    hide Npv;
    var a, b := Npv(cf, s.lo), Npv(cf, s.hi);
    if a < 0.0 { MulStrict(0.0, -a, -b); }
    if b > 0.0 { MulStrict(0.0, a, b); }
  }

  lemma AnswerRecovered(cf: seq<real>, root: real)
    requires Conventional(cf) && LOW <= root <= HIGH && Npv(cf, root) == 0.0 && !RootMissed(cf)
    ensures !NoSignChange(cf)
    ensures var y := After(cf, 100).Answer();
            Abs(Npv(cf, y)) < 1.0 || Abs(y - root) * Pow(2.0, 101) <= 2.95
  {
    hide Npv, Pow, After, Step, RootMissed, Conventional, Straddles;
    MissedExactly(cf, root);
    AnswerIsRoot(cf);
    var s := After(cf, 100);
    StraddleHoldsRoot(cf, s, root);
    PowPositive(2.0, 100);
    PowStep(2.0, 101);
    if !(Abs(Npv(cf, s.Answer())) < 1.0) {
      FoundIsSmall(cf, 100);
      MiddleIsNear(s.lo, s.hi, root, Pow(2.0, 100), 2.95);
    }
  }

  /** The rate of an outlay followed by receipts is recovered to 2.95 / 2^101, or to a pound of present value. */
  lemma RootRecovered(cf: seq<real>, root: real)
    requires Conventional(cf) && LOW <= root <= HIGH && Npv(cf, root) == 0.0 && !RootMissed(cf)
    ensures Rate(cf).Some?
    ensures var y := Rate(cf).value; Abs(Npv(cf, y)) < 1.0 || Abs(y - root) * Pow(2.0, 101) <= 2.95
  {
    hide *;
    AnswerRecovered(cf, root);
    SignsShared(cf);
    RateIsAnswer(cf);
  }

  // ---------------------------------------------------------------- the missed root, concretely

  const MISSED: seq<real> := [-20.0, 1.0]

  lemma TwoPeriodNpv(r: real)
    requires r > -1.0
    ensures Npv(MISSED, r) == -20.0 + Div(1.0, 1.0 + r)
  {
    hide Div;
    assert MISSED[..1] == [-20.0] && [-20.0][..0] == [];
    PowZero(1.0 + r);
    assert Pow(1.0 + r, 1) == (1.0 + r) * Pow(1.0 + r, 0);
    DivUnique(-20.0, 1.0, -20.0);
    assert Npv([-20.0], r) == Npv([], r) + Div(-20.0, Pow(1.0 + r, 0));
    assert Npv([], r) == 0.0;
  }

  /** £20 out for £1 back earns -95% exactly, yet the search reports a positive rate at which £19 is lost. */
  lemma MissedRoot()
    ensures Npv(MISSED, LOW) == 0.0 && RootMissed(MISSED) && !NoSignChange(MISSED)
    ensures Rate(MISSED).Some? && Rate(MISSED).value > 0.5 && Npv(MISSED, Rate(MISSED).value) < -19.0
  {
    RateIsAnswer(MISSED);
    hide Npv, After, Div, Rate;
    TwoPeriodNpv(LOW);
    DivUnique(1.0, 0.05, 20.0);
    MissedValue((LOW + HIGH) / 2.0);
    MissedValue(HIGH);
    assert Npv(MISSED, (LOW + HIGH) / 2.0) * Npv(MISSED, HIGH) > 0.0;
    MissedRun(100);
    MissedValue(After(MISSED, 100).Answer());
  }

  lemma MissedValue(r: real)
    requires r > 0.5
    ensures -20.0 < Npv(MISSED, r) < -19.0
  {
    hide Npv, Div;
    TwoPeriodNpv(r);
    var q := Div(1.0, 1.0 + r);
    DivPositive(1.0, 1.0 + r);
    DivLaw(1.0, 1.0 + r);
    if q >= 1.0 { MulMono(1.0, q, 1.0 + r); }
  }

  lemma {:induction false} MissedRun(k: nat)
    requires k >= 1 && Npv(MISSED, LOW) == 0.0
    ensures After(MISSED, k).found.None? && After(MISSED, k).lo > 0.5 && After(MISSED, k).flo < -19.0
  {
    hide Npv;
    var s := After(MISSED, k - 1);
    var mid := (s.lo + s.hi) / 2.0;
    if k == 1 {
      assert s == Start(MISSED);
    } else {
      MissedRun(k - 1);
    }
    MissedValue(mid);
    var f := Npv(MISSED, mid);
    assert s.flo * f >= 0.0 by {
      if k > 1 { MulNonNegative(-s.flo, -f); }
    }
  }


  // ---------------------------------------------------------------- what is summed, and where the search stops

  /** The first flow at face value, and the rest discounted a period more than they would be alone. */
  lemma {:induction false} NpvPeels(c: real, cf: seq<real>, r: real)
    requires r > -1.0
    ensures Npv([], r) == 0.0
    ensures Npv([c] + cf, r) == c + Div(Npv(cf, r), 1.0 + r)
  {
    hide Div;
    if |cf| == 0 {
      assert [c] + cf == [c] && [c][..0] == [];
      PowZero(1.0 + r);
      DivUnique(c, 1.0, c);
      DivUnique(0.0, 1.0 + r, 0.0);
    } else {
      var n := |cf| - 1;
      NpvPeels(c, cf[..n], r);
      assert ([c] + cf)[..n + 1] == [c] + cf[..n] && ([c] + cf)[n + 1] == cf[n];
      NpvUnfolds([c] + cf, r);
      NpvUnfolds(cf, r);
      hide Npv, Pow;
      PeriodMore(cf[n], r, n);
      DivDifference(Npv(cf[..n], r), Npv(cf, r), 1.0 + r);
    }
  }

  lemma PeriodMore(c: real, r: real, n: nat)
    requires r > -1.0
    ensures Pow(1.0 + r, n) > 0.0 && Pow(1.0 + r, n + 1) > 0.0
    ensures Div(c, Pow(1.0 + r, n + 1)) == Div(Div(c, Pow(1.0 + r, n)), 1.0 + r)
  {
    hide Div;
    PowPositive(1.0 + r, n);
    PowPositive(1.0 + r, n + 1);
    PowStep(1.0 + r, n + 1);
    hide Pow;
    NestedDiv(c, Pow(1.0 + r, n), 1.0 + r, Pow(1.0 + r, n + 1));
  }

  lemma NestedDiv(c: real, p: real, g: real, gp: real)
    requires p > 0.0 && g > 0.0 && gp == g * p && gp > 0.0
    ensures Div(c, gp) == Div(Div(c, p), g)
  {
    DivLaw(c, p);
    DivLaw(Div(c, p), g);
    hide Div;
    var q := Div(Div(c, p), g);
    assert q * (g * p) == (q * g) * p;
    DivUnique(c, gp, q);
  }

  /** Somewhere in the first `k` steps the middle of the bracket was within a pound of nothing. */
  ghost predicate CameClose(cf: seq<real>, k: nat) { exists j: nat :: j < k && CloseAt(cf, j) }

  ghost predicate CloseAt(cf: seq<real>, j: nat) {
    var s := After(cf, j);
    s.found.None? && -1.0 < Npv(cf, (s.lo + s.hi) / 2.0) < 1.0
  }

  /** The search answers at the first middle worth less than a pound either way, and otherwise goes on halving. */
  lemma {:induction false} StopsAtAPound(cf: seq<real>, k: nat)
    ensures After(cf, 0) == Search(-0.95, 2.0, Npv(cf, -0.95), None)
    ensures After(cf, k).found.Some? <==> CameClose(cf, k)
    ensures var s, n := After(cf, k), After(cf, k + 1);
            var mid := (s.lo + s.hi) / 2.0;
            s.found.None? ==>
              if -1.0 < Npv(cf, mid) < 1.0 then n == s.(found := Some(mid))
              else if s.flo * Npv(cf, mid) < 0.0 then n == s.(hi := mid)
              else n == s.(lo := mid, flo := Npv(cf, mid))
  {
    hide *;
    AfterUnfolds(cf, k);
    StepIs(cf, After(cf, k));
    if k == 0 {
      NoneCloseYet(cf);
    } else {
      StopsAtAPound(cf, k - 1);
      AfterUnfolds(cf, k - 1);
      StepIs(cf, After(cf, k - 1));
      OneMoreClose(cf, k - 1);
      CloseMeans(cf, k - 1);
    }
  }

  lemma AfterUnfolds(cf: seq<real>, k: nat)
    ensures After(cf, 0) == Search(-0.95, 2.0, Npv(cf, -0.95), None)
    ensures After(cf, k + 1) == Step(cf, After(cf, k))
  {
    hide Npv, Step;
  }

  lemma StepIs(cf: seq<real>, s: Search)
    requires s.InRange()
    ensures s.found.Some? ==> Step(cf, s) == s
    ensures var mid := (s.lo + s.hi) / 2.0;
            s.found.None? ==>
              Step(cf, s) == if -1.0 < Npv(cf, mid) < 1.0 then s.(found := Some(mid))
                             else if s.flo * Npv(cf, mid) < 0.0 then s.(hi := mid)
                             else s.(lo := mid, flo := Npv(cf, mid))
  {
    hide Npv;
  }

  lemma CloseMeans(cf: seq<real>, j: nat)
    ensures var s := After(cf, j);
            CloseAt(cf, j) <==> s.found.None? && -1.0 < Npv(cf, (s.lo + s.hi) / 2.0) < 1.0
  {
    hide After, Npv;
  }

  lemma NoneCloseYet(cf: seq<real>)
    ensures !CameClose(cf, 0)
  {
  }

  lemma OneMoreClose(cf: seq<real>, k: nat)
    ensures CameClose(cf, k + 1) <==> CameClose(cf, k) || CloseAt(cf, k)
  {
    hide CloseAt;
    if CameClose(cf, k) {
      var j: nat :| j < k && CloseAt(cf, j);
      assert CloseAt(cf, j);
    }
  }
}
