/** Monthly spend weights: how a cost falls over its own window. */
module SpendProfile {
  import opened Numbers

  datatype SpendKey = SCurve | Even | Linear | Front | Back

  function Smoothstep(t: real): real { t * t * (3.0 - 2.0 * t) }

  /** The unnormalised weight of month `i` (0-based) of a window of `months`. */
  function RawWeight(months: nat, key: SpendKey, i: nat): real
    requires i < months
  {
    match key
    case Even | Linear => 1.0
    case Front => (months - i) as real
    case Back => (i + 1) as real
    case SCurve => Smoothstep(Div((i + 1) as real, months as real)) - Smoothstep(Div(i as real, months as real))
  }

  function RawWeights(months: nat, key: SpendKey): seq<real> {
    seq(months, i requires 0 <= i < months => RawWeight(months, key, i))
  }

  function Normaliser(total: real): (n: real)
    ensures n != 0.0
  {
    if total == 0.0 then 1.0 else total
  }

  /** Scales a list of weights to sum to one. */
  function Normalise(raw: seq<real>): seq<real> {
    seq(|raw|, i requires 0 <= i < |raw| => Div(raw[i], Normaliser(Sum(raw))))
  }

  function Weights(months: nat, key: SpendKey): (w: seq<real>)
    ensures |w| == months
  {
    Normalise(RawWeights(months, key))
  }

  method BuildSpendProfile(months: real, key: SpendKey) returns (w: seq<real>)
    ensures w == Weights(if Round(months) >= 1 then Round(months) else 1, key)
  {
    var P := if Round(months) >= 1 then Round(months) else 1;
    ghost var all := RawWeights(P, key);
    var raw: seq<real> := [];
    for i := 0 to P
      invariant raw == all[..i]
    {
      var x := RawWeight(P, key, i);
      assert all[..i + 1] == all[..i] + [all[i]];
      raw := raw + [x];
    }
    assert raw == all;
    w := Normalise(raw);
  }

  // ---------------------------------------------------------------- what the weights add up to

  /** The first `k` unnormalised weights, added up in closed form. */
  function RawPrefix(months: nat, key: SpendKey, k: nat): real
    requires k <= months
  {
    var n := k as real;
    match key
    case Even | Linear => n
    case Front => n * months as real - n * (n - 1.0) / 2.0
    case Back => n * (n + 1.0) / 2.0
    case SCurve => if months == 0 then 0.0 else Smoothstep(Div(n, months as real))
  }

  lemma RawPrefixStep(months: nat, key: SpendKey, k: nat)
    requires k < months
    ensures RawPrefix(months, key, k + 1) == RawPrefix(months, key, k) + RawWeight(months, key, k)
  {
    var n := k as real;
    assert (k + 1) as real == n + 1.0;
  }

  lemma {:induction false} RawPrefixSums(months: nat, key: SpendKey, k: nat)
    requires k <= months
    ensures Sum(RawWeights(months, key)[..k]) == RawPrefix(months, key, k)
  {
    var raw := RawWeights(months, key);
    if k == 0 {
      EmptyPrefix(months, key);
    } else {
      RawPrefixSums(months, key, k - 1);
      RawPrefixStep(months, key, k - 1);
      assert raw[..k][..k - 1] == raw[..k - 1];
    }
  }

  lemma EmptyPrefix(months: nat, key: SpendKey)
    ensures RawPrefix(months, key, 0) == 0.0
  {
  }

  lemma RawTotalPositive(months: nat, key: SpendKey)
    requires months > 0
    ensures RawPrefix(months, key, months) > 0.0
    ensures Sum(RawWeights(months, key)) == RawPrefix(months, key, months)
  {
    RawPrefixSums(months, key, months);
    assert RawWeights(months, key)[..months] == RawWeights(months, key);
    var n := months as real;
    if key == SCurve {
      DivUnique(n, n, 1.0);
    } else {
      MulMono2(1.0, n, 1.0, n);
      assert key == Front ==> RawPrefix(months, key, months) == n * (n + 1.0) / 2.0;
    }
  }

  lemma SquaresDiffer(s: real, t: real)
    ensures (t - s) * (s + t) == t * t - s * s
  {
  }

  lemma CubesDiffer(s: real, t: real)
    ensures (t - s) * (s * s + s * t + t * t) == t * t * t - s * s * s
  {
  }

  /** The step from `s` to `t` is `t - s` times a factor that is positive inside the unit interval. */
  function StepFactor(s: real, t: real): real { 3.0 * (s + t) - 2.0 * (s * s + s * t + t * t) }

  lemma StepFactors(s: real, t: real)
    ensures Smoothstep(t) - Smoothstep(s) == (t - s) * StepFactor(s, t)
  {
    SquaresDiffer(s, t);
    CubesDiffer(s, t);
    var sum, squares, cubes := s + t, t * t - s * s, t * t * t - s * s * s;
    assert Smoothstep(t) == 3.0 * (t * t) - 2.0 * (t * t * t);
    assert Smoothstep(s) == 3.0 * (s * s) - 2.0 * (s * s * s);
    assert (t - s) * StepFactor(s, t) == 3.0 * ((t - s) * (s + t)) - 2.0 * ((t - s) * (s * s + s * t + t * t));
  }

  lemma StepFactorPositive(s: real, t: real)
    requires 0.0 <= s < t <= 1.0
    ensures StepFactor(s, t) > 0.0
  {
    MulNonNegative(s, 1.0 - s);
    MulNonNegative(t, 1.0 - t);
    MulNonNegative(s, 1.0 - t);
    MulStrict(s, 1.0, t);
    assert StepFactor(s, t) == 2.0 * (s * (1.0 - s)) + 2.0 * (t * (1.0 - t)) + s * (1.0 - t) + (t - s * t);
  }

  lemma SmoothstepRises(s: real, t: real)
    requires 0.0 <= s < t <= 1.0
    ensures Smoothstep(s) < Smoothstep(t)
  {
    hide *;
    StepFactors(s, t);
    StepFactorPositive(s, t);
    MulStrict(s, t, StepFactor(s, t));
    MulStrict(0.0, t - s, StepFactor(s, t));
    NilFactor(StepFactor(s, t));
  }

  lemma NilFactor(x: real)
    ensures 0.0 * x == 0.0
  {
  }

  lemma RawWeightPositive(months: nat, key: SpendKey, i: nat)
    requires i < months
    ensures RawWeight(months, key, i) > 0.0
  {
    if key == SCurve {
      var n := months as real;
      var lo, hi := Div(i as real, n), Div((i + 1) as real, n);
      DivPositive(i as real, n);
      DivPositive(1.0, n);
      assert (lo + Div(1.0, n)) * n == (i + 1) as real;
      DivUnique((i + 1) as real, n, lo + Div(1.0, n));
      DivMono((i + 1) as real, n, n);
      DivUnique(n, n, 1.0);
      SmoothstepRises(lo, hi);
    }
  }

  /** Running share of the spend after `k` months. */
  lemma CumulativeShare(months: nat, key: SpendKey, k: nat)
    requires k <= months && months > 0
    ensures RawPrefix(months, key, months) > 0.0
    ensures Sum(Weights(months, key)[..k]) == Div(RawPrefix(months, key, k), RawPrefix(months, key, months))
  {
    RawTotalPositive(months, key);
    RawPrefixSums(months, key, k);
    NormalisePrefix(RawWeights(months, key), k);
  }

  lemma NormaliseScales(raw: seq<real>, c: real)
    requires Sum(raw) > 0.0 && c == Div(1.0, Sum(raw))
    ensures forall i :: 0 <= i < |raw| ==> Normalise(raw)[i] == raw[i] * c
  {
    forall i | 0 <= i < |raw| ensures Normalise(raw)[i] == raw[i] * c {
      DivReciprocal(raw[i], Sum(raw));
    }
  }

  lemma NormalisePrefix(raw: seq<real>, k: nat)
    requires k <= |raw| && Sum(raw) > 0.0
    ensures Sum(Normalise(raw)[..k]) == Div(Sum(raw[..k]), Sum(raw))
  {
    hide Div;
    var c := Div(1.0, Sum(raw));
    NormaliseScales(raw, c);
    ScaledPrefix(raw, Normalise(raw), c, k);
    DivReciprocal(Sum(raw[..k]), Sum(raw));
  }

  lemma ScaledPrefix(raw: seq<real>, w: seq<real>, c: real, k: nat)
    requires k <= |raw| == |w|
    requires forall i :: 0 <= i < |raw| ==> w[i] == raw[i] * c
    ensures Sum(w[..k]) == Sum(raw[..k]) * c
  {
    SumScaled(raw[..k], w[..k], c);
  }

  /** Every profile is a distribution: `months` positive weights that sum to exactly one. */
  lemma WeightsDistribute(months: nat, key: SpendKey)
    requires months > 0
    ensures |Weights(months, key)| == months
    ensures Sum(Weights(months, key)) == 1.0
    ensures forall i :: 0 <= i < months ==> Weights(months, key)[i] > 0.0
  {
    RawTotalPositive(months, key);
    NormaliseDistributes(RawWeights(months, key)) by {
      forall i | 0 <= i < months ensures RawWeights(months, key)[i] > 0.0 {
        RawWeightPositive(months, key, i);
      }
    }
  }

  lemma NormaliseDistributes(raw: seq<real>)
    requires Sum(raw) > 0.0
    requires forall i :: 0 <= i < |raw| ==> raw[i] > 0.0
    ensures Sum(Normalise(raw)) == 1.0
    ensures forall i :: 0 <= i < |raw| ==> Normalise(raw)[i] > 0.0
  {
    NormalisePrefix(raw, |raw|);
    assert Normalise(raw)[..|raw|] == Normalise(raw) && raw[..|raw|] == raw;
    DivUnique(Sum(raw), Sum(raw), 1.0);
    forall i | 0 <= i < |raw| ensures Normalise(raw)[i] > 0.0 {
      DivPositive(raw[i], Sum(raw));
    }
  }

  /** Front-loaded spend runs ahead of even spend, which runs ahead of back-loaded spend, after every month. */
  lemma SpendOrder(months: nat, k: nat)
    requires k <= months && months > 0
    ensures Sum(Weights(months, Back)[..k]) <= Sum(Weights(months, Even)[..k]) <= Sum(Weights(months, Front)[..k])
  {
    hide *;
    CumulativeShare(months, Back, k);
    CumulativeShare(months, Even, k);
    CumulativeShare(months, Front, k);
    forall key ensures RawPrefix(months, key, months) > 0.0 {
      RawTotalPositive(months, key);
    }
    RampShares(months, k);
  }

  /** The two ramps against the straight line, as fractions of the total after `k` months. */
  lemma RampShares(months: nat, k: nat)
    requires k <= months && months > 0
    requires forall key :: RawPrefix(months, key, months) > 0.0
    ensures Div(RawPrefix(months, Back, k), RawPrefix(months, Back, months))
         <= Div(RawPrefix(months, Even, k), RawPrefix(months, Even, months))
         <= Div(RawPrefix(months, Front, k), RawPrefix(months, Front, months))
  {
    hide Div;
    var n, c := months as real, k as real;
    var even, half := c * ((n + 1.0) / 2.0), n * ((n + 1.0) / 2.0);
    RampPrefixes(months, k, even);
    RampPrefixes(months, months, half);
    DivCancel(c, n, (n + 1.0) / 2.0, even, half);
    DivMono(RawPrefix(months, Back, k), even, half);
    DivMono(even, RawPrefix(months, Front, k), half);
  }

  lemma RampPrefixes(months: nat, k: nat, even: real)
    requires k <= months && even == k as real * ((months as real + 1.0) / 2.0)
    ensures RawPrefix(months, Back, k) <= even <= RawPrefix(months, Front, k)
    ensures k == months ==> RawPrefix(months, Back, k) == even == RawPrefix(months, Front, k)
  {
    MulMono(k as real, months as real, k as real);
  }


  // ---------------------------------------------------------------- the profiles, month by month

  /** The share of a window's money spent when `k` of its `months` are over. */
  function Ramp(months: nat, key: SpendKey, k: nat): real
    requires k <= months && months > 0
  {
    var n, c := months as real, k as real;
    MulStrict(0.0, n, n + 1.0);
    match key
    case Even | Linear => Div(c, n)
    case Front => Div(c * (2.0 * n - c + 1.0), n * (n + 1.0))
    case Back => Div(c * (c + 1.0), n * (n + 1.0))
    case SCurve => Div(c, n) * Div(c, n) * (3.0 - 2.0 * Div(c, n))
  }

  lemma RampRatio(months: nat, key: SpendKey, k: nat)
    requires k <= months && months > 0 && (key == Front || key == Back)
    requires RawPrefix(months, key, months) > 0.0
    ensures Div(RawPrefix(months, key, k), RawPrefix(months, key, months)) == Ramp(months, key, k)
  {
    hide Div;
    var n, c := months as real, k as real;
    MulStrict(0.0, n, n + 1.0);
    var p, q := RawPrefix(months, key, k), RawPrefix(months, key, months);
    assert q == n * (n + 1.0) * 0.5 by { assert key == Front ==> n * n - n * (n - 1.0) / 2.0 == n * (n + 1.0) * 0.5; }
    var top := if key == Front then c * (2.0 * n - c + 1.0) else c * (c + 1.0);
    assert p == top * 0.5;
    DivCancel(top, n * (n + 1.0), 0.5, p, q);
  }

  lemma PlainRatio(months: nat, key: SpendKey, k: nat)
    requires k <= months && months > 0 && key != Front && key != Back
    requires RawPrefix(months, key, months) > 0.0
    ensures Div(RawPrefix(months, key, k), RawPrefix(months, key, months)) == Ramp(months, key, k)
  {
    hide Div;
    var n := months as real;
    DivUnique(n, n, 1.0);
    if key == SCurve { DivUnique(Smoothstep(Div(k as real, n)), 1.0, Smoothstep(Div(k as real, n))); }
  }

  /** After every month each profile has spent exactly its share: the straight line, the two ramps, the smoothstep. */
  lemma WeightsFollowRamp(months: nat, key: SpendKey, k: nat)
    requires k <= months && months > 0
    ensures Sum(Weights(months, key)[..k]) == Ramp(months, key, k)
    ensures Ramp(months, key, 0) == 0.0 && Ramp(months, key, months) == 1.0
  {
    CumulativeShare(months, key, k);
    CumulativeShare(months, key, 0);
    CumulativeShare(months, key, months);
    forall j | 0 <= j <= months
      ensures Div(RawPrefix(months, key, j), RawPrefix(months, key, months)) == Ramp(months, key, j)
    {
      if key == Front || key == Back { RampRatio(months, key, j); } else { PlainRatio(months, key, j); }
    }
    hide RawPrefix, Ramp, Weights;
    DivUnique(RawPrefix(months, key, months), RawPrefix(months, key, months), 1.0);
    EmptyPrefix(months, key);
    DivUnique(0.0, RawPrefix(months, key, months), 0.0);
  }
}
