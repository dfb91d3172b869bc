/** Exact arithmetic shared by the model: JavaScript's rounding, clamping, whole powers and finite sums. */
module Numbers {

  datatype Option<+T> = None | Some(value: T) {
    function GetOr(default: T): T {
      if Some? then value else default
    }
  }

  function Min(a: real, b: real): real { if a <= b then a else b }

  function Max(a: real, b: real): real { if a >= b then a else b }

  function Abs(a: real): real { if a >= 0.0 then a else -a }

  /** A product of two unknowns; proofs that only need its laws hide its definition. */
  function Times(a: real, b: real): real { a * b }

  /** `x * pct / 100`. */
  function Percent(x: real, pct: real): real { Times(x, pct) / 100.0 }

  /** Division by a number that is not a constant; proofs use its law, `DivLaw`. */
  function Div(a: real, b: real): real
    requires b != 0.0
  {
    a / b
  }

  /** `Math.round`: to the nearest integer, halves towards positive infinity. */
  function Round(x: real): int { (x + 0.5).Floor }

  /** `Math.ceil`. */
  function Ceil(x: real): int { -((-x).Floor) }

  /** `clamp(v, lo, hi)`: the lower bound wins when the bounds cross. */
  function Clamp(v: int, lo: int, hi: int): int {
    var capped := if v <= hi then v else hi;
    if lo >= capped then lo else capped
  }

  /** `x || fallback` on an integer: zero is falsy. */
  function OrElse(x: int, fallback: int): int { if x == 0 then fallback else x }

  /** `Math.pow(x, n)` at a whole exponent. */
  function Pow(x: real, n: nat): real {
    if n == 0 then 1.0 else x * Pow(x, n - 1)
  }

  /** The running total of a series, added left to right. */
  function Sum(s: seq<real>): real {
    if |s| == 0 then 0.0 else Sum(s[..|s| - 1]) + s[|s| - 1]
  }

  /** `xs.reduce((a, x) => a + f(x), 0)`. */
  function SumOf<T>(f: T -> real, xs: seq<T>): real {
    if |xs| == 0 then 0.0 else SumOf(f, xs[..|xs| - 1]) + f(xs[|xs| - 1])
  }

  function Zeros(n: nat): seq<real> { seq(n, _ => 0.0) }

  // ---------------------------------------------------------------- order and products

  lemma MulMono(a: real, b: real, c: real)
    requires a <= b && 0.0 <= c
    ensures a * c <= b * c && c * a <= c * b
  {
    assert (b - a) * c >= 0.0;
  }

  lemma MulNonNegative(a: real, b: real)
    requires 0.0 <= a && 0.0 <= b
    ensures 0.0 <= a * b
  {
  }

  lemma MulMono2(a: real, b: real, c: real, d: real)
    requires 0.0 <= a <= b && 0.0 <= c <= d
    ensures 0.0 <= a * c <= b * d
  {
    MulMono(a, b, c);
    MulMono(c, d, b);
    MulMono(0.0, a, c);
  }

  lemma TimesAdds(a: real, p: real, q: real)
    ensures Times(a, p + q) == Times(a, p) + Times(a, q)
    ensures Times(p + q, a) == Times(p, a) + Times(q, a)
  {
  }

  lemma TimesSplits(whole: real, a: real, b: real, w: real)
    requires whole == a + b
    ensures Times(whole, w) == Times(a, w) + Times(b, w)
  {
    TimesAdds(w, a, b);
  }

  lemma NilTimes(w: real)
    ensures Times(0.0, w) == 0.0 == Times(w, 0.0)
  {
  }

  lemma TimesMono(a: real, b: real, w: real)
    requires a <= b && w >= 0.0
    ensures Times(a, w) <= Times(b, w) && Times(w, a) <= Times(w, b)
    ensures a >= 0.0 ==> Times(a, w) >= 0.0 && Times(w, a) >= 0.0
  {
    MulMono(a, b, w);
    if a >= 0.0 { MulNonNegative(a, w); }
  }

  lemma TimesAssociates(a: real, b: real, c: real)
    ensures Times(Times(a, b), c) == Times(a, Times(b, c))
    ensures Times(a, b) == Times(b, a)
  {
    assert a * b * c == a * (b * c);
  }

  lemma TimesScales(base: real, a: real, w: real, c: real)
    ensures Times(base + Times(a, w), c) == Times(base, c) + Times(Times(a, c), w)
  {
    assert a * w * c == a * c * w;
  }

  lemma MulStrict(a: real, b: real, c: real)
    requires a < b && 0.0 < c
    ensures a * c < b * c && c * a < c * b
  {
    assert (b - a) * c > 0.0;
  }

  lemma ProductRises(a: real, b: real, p: real, q: real)
    requires 0.0 < a < b && 0.0 < p <= q
    ensures 0.0 < a * p < b * q
  {
    MulMono(p, q, b);
    MulStrict(a, b, p);
    MulStrict(0.0, a, p);
    assert 0.0 * p == 0.0;
    assert a * p < b * p <= b * q;
  }

  /** A non-zero factor cancels. */
  lemma MulCancel(p: real, q: real, b: real)
    requires b != 0.0 && p * b == q * b
    ensures p == q
  {
    assert (p - q) * b == 0.0;
  }

  lemma DivLaw(a: real, b: real)
    requires b != 0.0
    ensures Div(a, b) * b == a
  {
  }

  /** A product determines the quotient. */
  lemma DivUnique(a: real, b: real, q: real)
    requires b != 0.0 && q * b == a
    ensures Div(a, b) == q
  {
    DivLaw(a, b);
    MulCancel(Div(a, b), q, b);
  }

  lemma DivMono(a: real, b: real, c: real)
    requires a <= b && 0.0 < c
    ensures Div(a, c) <= Div(b, c)
  {
    hide Div;
    DivDifference(a, b, c);
    DivPositive(b - a, c);
  }

  lemma DivDifference(a: real, b: real, c: real)
    requires c != 0.0
    ensures Div(b - a, c) == Div(b, c) - Div(a, c)
  {
    hide Div;
    DivLaw(a, c);
    DivLaw(b, c);
    DivUnique(b - a, c, Div(b, c) - Div(a, c));
  }

  lemma DivPositive(a: real, b: real)
    requires 0.0 < b
    ensures 0.0 <= a ==> 0.0 <= Div(a, b)
    ensures 0.0 < a ==> 0.0 < Div(a, b)
  {
    hide Div;
    DivLaw(a, b);
    if Div(a, b) < 0.0 { MulStrict(Div(a, b), 0.0, b); }
  }

  /** Dividing is multiplying by the reciprocal. */
  lemma DivReciprocal(a: real, b: real)
    requires b != 0.0
    ensures Div(a, b) == a * Div(1.0, b)
  {
    hide Div;
    DivLaw(1.0, b);
    var r := Div(1.0, b);
    assert a * r * b == a * (r * b);
    DivUnique(a, b, a * r);
  }

  /** Cancelling a common factor. */
  lemma DivCancel(a: real, b: real, k: real, p: real, q: real)
    requires b != 0.0 && k != 0.0 && p == a * k && q == b * k
    ensures q != 0.0 && Div(p, q) == Div(a, b)
  {
    hide Div;
    DivLaw(a, b);
    var d := Div(a, b);
    assert d * (b * k) == (d * b) * k;
    DivUnique(p, q, d);
  }

  // ---------------------------------------------------------------- bisection

  /** The middle of a bracket is within half its width of anything inside. */
  lemma MiddleIsNear(lo: real, hi: real, root: real, p: real, width: real)
    requires lo <= root <= hi && p > 0.0 && (hi - lo) * p == width
    ensures Abs((lo + hi) / 2.0 - root) * (2.0 * p) <= width
  {
    var error := Abs((lo + hi) / 2.0 - root);
    MulMono(error, (hi - lo) / 2.0, 2.0 * p);
    assert (hi - lo) / 2.0 * (2.0 * p) == (hi - lo) * p;
  }

  // ---------------------------------------------------------------- rounding

  lemma RoundNearest(x: real)
    ensures x - 0.5 < Round(x) as real <= x + 0.5
  {
  }

  lemma CeilBounds(x: real)
    ensures x <= Ceil(x) as real < x + 1.0
  {
  }

  // ---------------------------------------------------------------- powers

  lemma PowZero(x: real)
    ensures Pow(x, 0) == 1.0
  {
  }

  lemma PowStep(x: real, n: nat)
    requires n > 0
    ensures Pow(x, n) == x * Pow(x, n - 1)
  {
  }

  lemma {:induction false} PowPositive(x: real, n: nat)
    requires x > 0.0
    ensures Pow(x, n) > 0.0
  {
    if n > 0 { PowPositive(x, n - 1); }
  }

  lemma {:induction false} PowAtLeastOne(x: real, n: nat)
    requires x >= 1.0
    ensures Pow(x, n) >= 1.0
  {
    if n > 0 {
      PowAtLeastOne(x, n - 1);
      MulMono2(1.0, x, 1.0, Pow(x, n - 1));
    }
  }

  lemma {:induction false} PowOne(n: nat)
    ensures Pow(1.0, n) == 1.0
  {
    if n > 0 { PowOne(n - 1); }
  }

  /** A larger positive base has a larger power, strictly so at a positive exponent. */
  lemma {:induction false} PowIncreasing(x: real, y: real, n: nat)
    requires 0.0 < x < y
    ensures 0.0 < Pow(x, n) <= Pow(y, n)
    ensures n > 0 ==> Pow(x, n) < Pow(y, n)
  {
    if n > 0 {
      PowIncreasing(x, y, n - 1);
      PowStep(x, n);
      PowStep(y, n);
      ProductRises(x, y, Pow(x, n - 1), Pow(y, n - 1));
    }
  }

  // ---------------------------------------------------------------- sums

  lemma SumSnoc(s: seq<real>, x: real)
    ensures Sum(s + [x]) == Sum(s) + x
  {
    assert (s + [x])[..|s|] == s;
  }

  lemma SumOfSnoc<T>(f: T -> real, xs: seq<T>, x: T)
    ensures SumOf(f, xs + [x]) == SumOf(f, xs) + f(x)
  {
    assert (xs + [x])[..|xs|] == xs;
  }

  lemma SumOfOne<T>(f: T -> real, x: T)
    ensures SumOf(f, [x]) == f(x)
  {
    assert [x][..0] == [];
    assert SumOf(f, [x][..0]) == 0.0;
  }

  lemma {:induction false} SumConcat(a: seq<real>, b: seq<real>)
    ensures Sum(a + b) == Sum(a) + Sum(b)
  {
    if |b| == 0 {
      assert a + b == a;
    } else {
      var init := b[..|b| - 1];
      SumConcat(a, init);
      assert a + b == (a + init) + [b[|b| - 1]];
      SumSnoc(a + init, b[|b| - 1]);
    }
  }

  lemma {:induction false} SumOfConcat<T>(f: T -> real, a: seq<T>, b: seq<T>)
    ensures SumOf(f, a + b) == SumOf(f, a) + SumOf(f, b)
  {
    if |b| == 0 {
      assert a + b == a;
    } else {
      var init := b[..|b| - 1];
      SumOfConcat(f, a, init);
      assert a + b == (a + init) + [b[|b| - 1]];
      SumOfSnoc(f, a + init, b[|b| - 1]);
    }
  }

  lemma {:induction false} SumZeros(n: nat)
    ensures Sum(Zeros(n)) == 0.0
  {
    if n > 0 {
      SumZeros(n - 1);
      assert Zeros(n)[..n - 1] == Zeros(n - 1);
    }
  }

  lemma {:induction false} SumUpdate(s: seq<real>, i: nat, v: real)
    requires i < |s|
    ensures Sum(s[i := v]) == Sum(s) - s[i] + v
  {
    var n := |s| - 1;
    if i == n {
      assert s[i := v][..n] == s[..n];
    } else {
      SumUpdate(s[..n], i, v);
      assert s[i := v][..n] == s[..n][i := v];
    }
  }

  lemma {:induction false} SumScaled(s: seq<real>, t: seq<real>, c: real)
    requires |t| == |s|
    requires forall i :: 0 <= i < |s| ==> t[i] == s[i] * c
    ensures Sum(t) == Sum(s) * c
  {
    var n := |s| - 1;
    if n >= 0 { SumScaled(s[..n], t[..n], c); }
  }

  lemma {:induction false} SumMono(s: seq<real>, t: seq<real>)
    requires |t| == |s|
    requires forall i :: 0 <= i < |s| ==> s[i] <= t[i]
    ensures Sum(s) <= Sum(t)
  {
    var n := |s| - 1;
    if n >= 0 { SumMono(s[..n], t[..n]); }
  }

  lemma {:induction false} SumNonNegative(s: seq<real>)
    requires forall i :: 0 <= i < |s| ==> 0.0 <= s[i]
    ensures 0.0 <= Sum(s)
    ensures forall i :: 0 <= i < |s| ==> s[i] <= Sum(s)
  {
    var n := |s| - 1;
    if n >= 0 {
      SumNonNegative(s[..n]);
      forall i | 0 <= i < |s| ensures s[i] <= Sum(s) {
        if i < n { assert s[..n][i] == s[i]; }
      }
    }
  }

  lemma {:induction false} SumOfMono<T>(f: T -> real, xs: seq<T>, g: T -> real, ys: seq<T>)
    requires |xs| == |ys|
    requires forall i :: 0 <= i < |xs| ==> f(xs[i]) <= g(ys[i])
    ensures SumOf(f, xs) <= SumOf(g, ys)
  {
    var n := |xs| - 1;
    if n >= 0 { SumOfMono(f, xs[..n], g, ys[..n]); }
  }

  lemma SumOfSame<S, T>(f: S -> real, xs: seq<S>, g: T -> real, ys: seq<T>)
    requires |xs| == |ys|
    requires forall i :: 0 <= i < |xs| ==> f(xs[i]) == g(ys[i])
    ensures SumOf(f, xs) == SumOf(g, ys)
  {
    SumOfScaled(f, xs, g, ys, 1.0);
  }

  lemma {:induction false} SumOfNonNegative<T>(f: T -> real, xs: seq<T>)
    requires forall i :: 0 <= i < |xs| ==> 0.0 <= f(xs[i])
    ensures 0.0 <= SumOf(f, xs)
  {
    var n := |xs| - 1;
    if n >= 0 { SumOfNonNegative(f, xs[..n]); }
  }

  lemma {:induction false} SumOfTimes<S, T>(f: S -> real, xs: seq<S>, g: T -> real, ys: seq<T>, c: real)
    requires |xs| == |ys|
    requires forall i :: 0 <= i < |xs| ==> g(ys[i]) == Times(f(xs[i]), c)
    ensures SumOf(g, ys) == Times(SumOf(f, xs), c)
  {
    var n := |xs| - 1;
    if n >= 0 {
      SumOfTimes(f, xs[..n], g, ys[..n], c);
      TimesAdds(c, SumOf(f, xs[..n]), f(xs[n]));
      hide Times;
    }
  }

  /** Two reduces over lists of different kinds agree when they agree item by item up to a common factor. */
  lemma {:induction false} SumOfScaled<S, T>(f: S -> real, xs: seq<S>, g: T -> real, ys: seq<T>, c: real)
    requires |xs| == |ys|
    requires forall i :: 0 <= i < |xs| ==> g(ys[i]) == f(xs[i]) * c
    ensures SumOf(g, ys) == SumOf(f, xs) * c
  {
    SumOfTimes(f, xs, g, ys, c);
  }
}
