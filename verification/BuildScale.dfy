/** Build cost is in proportion to the build multiplier, phase by phase and over the scheme. */
module BuildScale {
  import opened Numbers
  import opened Scheme
  import Monotone

  /** What the build multiplier scales: build with its fees and contingency. */
  function BuildCost(input: AppraisalInput, shock: Shock): real
    requires input.Valid()
  {
    Build(input, shock) + Fees(input, shock) + Contingency(input, shock)
  }

  /** Two columns in one proportion, item by item, are in that proportion in total. */
  lemma {:induction false} SumInProportion(f: PhaseCalc -> real, xs: seq<PhaseCalc>, ys: seq<PhaseCalc>, p: real, q: real)
    requires |xs| == |ys| && forall i :: 0 <= i < |xs| ==> Times(f(xs[i]), p) == Times(f(ys[i]), q)
    ensures Times(SumOf(f, xs), p) == Times(SumOf(f, ys), q)
  {
    if |xs| == 0 {
      NilProportion(p, q);
    } else {
      var n := |xs| - 1;
      SumInProportion(f, xs[..n], ys[..n], p, q);
      TimesAdds(p, SumOf(f, xs[..n]), f(xs[n]));
      TimesAdds(q, SumOf(f, ys[..n]), f(ys[n]));
      hide Times;
    }
  }

  lemma NilProportion(p: real, q: real)
    ensures Times(0.0, p) == Times(0.0, q)
  {
  }

  lemma ScaledTwice(r: real, a: real, b: real, area: real)
    ensures Times(Times(Times(r, a), area), b) == Times(Times(Times(r, b), area), a)
  {
    assert r * a * area * b == r * b * area * a;
  }

  lemma PercentScales(x: real, y: real, p: real, q: real, pct: real)
    requires Times(x, p) == Times(y, q)
    ensures Times(Percent(x, pct), p) == Times(Percent(y, pct), q)
  {
    assert x * pct / 100.0 * p == x * p * pct / 100.0;
    assert y * pct / 100.0 * q == y * q * pct / 100.0;
  }

  lemma PhaseScales(input: AppraisalInput, s: Shock, t: Shock, i: nat)
    requires i < |input.phases|
    ensures var x, y := Phases(input, s)[i], Phases(input, t)[i];
            && Times(BuildOf(x), t.build) == Times(BuildOf(y), s.build)
            && Times(FeesOf(x), t.build) == Times(FeesOf(y), s.build)
            && Times(ContOf(x), t.build) == Times(ContOf(y), s.build)
  {
    hide Times, Percent, SumOf, PhaseGia, PhaseShares, PhaseStart, PhaseBuildMonths;
    var p := input.phases[i];
    var x, y := CalcPhase(input, s, p), CalcPhase(input, t, p);
    ScaledTwice(SumOf(Rate, PhaseTrades(input, p)), s.build, t.build, PhaseGia(input, p));
    PercentScales(x.build, y.build, t.build, s.build, x.feePct);
    PercentScales(x.build, y.build, t.build, s.build, x.contPct);
  }

  lemma UnphasedScales(input: AppraisalInput, s: Shock, t: Shock)
    requires input.Valid()
    ensures Times(UnphasedBuild(input, s), t.build) == Times(UnphasedBuild(input, t), s.build)
  {
    Monotone.UnphasedAreaFixed(input, s, t);
    hide Times, SumOf, UnphasedGia;
    ScaledTwice(SumOf(Rate, input.trades), s.build, t.build, UnphasedGia(input, s));
  }

  /** The cost at one multiplier is to the other multiplier as the cost at the other is to the one. */
  lemma BuildCostScales(input: AppraisalInput, s: Shock, t: Shock)
    requires input.Valid()
    ensures Times(BuildCost(input, s), t.build) == Times(BuildCost(input, t), s.build)
  {
    var xs, ys, p, q := Phases(input, s), Phases(input, t), t.build, s.build;
    var u, v := UnphasedBuild(input, s), UnphasedBuild(input, t);
    forall i | 0 <= i < |xs|
      ensures Times(BuildOf(xs[i]), p) == Times(BuildOf(ys[i]), q)
      ensures Times(FeesOf(xs[i]), p) == Times(FeesOf(ys[i]), q)
      ensures Times(ContOf(xs[i]), p) == Times(ContOf(ys[i]), q)
    {
      PhaseScales(input, s, t, i);
    }
    UnphasedScales(input, s, t);
    PercentScales(u, v, p, q, input.profFeePct);
    PercentScales(u, v, p, q, input.contingencyPct);
    SumInProportion(BuildOf, xs, ys, p, q);
    SumInProportion(FeesOf, xs, ys, p, q);
    SumInProportion(ContOf, xs, ys, p, q);
    BuildCostParts(input, s);
    BuildCostParts(input, t);
    hide *;
    SixAdd(SumOf(BuildOf, xs), SumOf(FeesOf, xs), SumOf(ContOf, xs), u, Percent(u, input.profFeePct),
           Percent(u, input.contingencyPct), BuildCost(input, s), p);
    SixAdd(SumOf(BuildOf, ys), SumOf(FeesOf, ys), SumOf(ContOf, ys), v, Percent(v, input.profFeePct),
           Percent(v, input.contingencyPct), BuildCost(input, t), q);
  }

  lemma BuildCostParts(input: AppraisalInput, shock: Shock)
    requires input.Valid()
    ensures var ps, u := Phases(input, shock), UnphasedBuild(input, shock);
            BuildCost(input, shock)
            == SumOf(BuildOf, ps) + SumOf(FeesOf, ps) + SumOf(ContOf, ps)
               + u + Percent(u, input.profFeePct) + Percent(u, input.contingencyPct)
  {
    hide SumOf, UnphasedBuild, Percent, Phases;
  }

  lemma SixAdd(a: real, b: real, c: real, d: real, e: real, f: real, whole: real, w: real)
    requires whole == a + b + c + d + e + f
    ensures Times(whole, w) == Times(a, w) + Times(b, w) + Times(c, w) + Times(d, w) + Times(e, w) + Times(f, w)
  {
    TimesAdds(w, a, b);
    TimesAdds(w, a + b, c);
    TimesAdds(w, a + b + c, d);
    TimesAdds(w, a + b + c + d, e);
    TimesAdds(w, a + b + c + d + e, f);
  }

  /** With nothing left of the build multiplier there is no build cost; and if a positive one costs nothing, so does any. */
  lemma NilBuild(input: AppraisalInput, s: Shock, t: Shock)
    requires input.Valid()
    ensures s.build == 0.0 ==> BuildCost(input, s) == 0.0
    ensures s.build > 0.0 && BuildCost(input, s) == 0.0 ==> BuildCost(input, t) == 0.0
  {
    BuildCostScales(input, s, Shock(1.0, 1.0));
    BuildCostScales(input, s, t);
    hide BuildCost;
    var x, y, one := BuildCost(input, s), BuildCost(input, t), BuildCost(input, Shock(1.0, 1.0));
    if s.build == 0.0 {
      assert Times(x, 1.0) == x && Times(one, 0.0) == 0.0;
    } else if s.build > 0.0 && x == 0.0 {
      assert Times(x, t.build) == 0.0;
      MulCancel(y, 0.0, s.build);
    }
  }
}
