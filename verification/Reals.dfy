/** Sums and maxima over the exact reals. */
module Reals {
  function Max(x: real, y: real): real { if x < y then y else x }

  function Min(x: real, y: real): real { if y < x then y else x }

  function Abs(x: real): real { if x < 0.0 then -x else x }

  function Clip(value: real, lower: real, upper: real): real { Max(lower, Min(upper, value)) }

  function Times(x: real, y: real): real { x * y }

  function Sum(s: seq<real>): real {
    if s == [] then 0.0 else Sum(s[..|s| - 1]) + s[|s| - 1]
  }

  lemma {:induction false} SumNonNegative(s: seq<real>)
    requires forall i :: 0 <= i < |s| ==> s[i] >= 0.0
    ensures Sum(s) >= 0.0
  {
    if s != [] { SumNonNegative(s[..|s| - 1]); }
  }

  lemma SumAppend(s: seq<real>, x: real)
    ensures Sum(s + [x]) == Sum(s) + x
  {
    assert (s + [x])[..|s|] == s;
  }

  lemma {:induction false} SumMonotone(a: seq<real>, b: seq<real>)
    requires |a| == |b| && forall i :: 0 <= i < |a| ==> a[i] <= b[i]
    ensures Sum(a) <= Sum(b)
  {
    if a != [] { SumMonotone(a[..|a| - 1], b[..|b| - 1]); }
  }

  lemma MulNonNegative(x: real, y: real)
    requires x >= 0.0 && y >= 0.0
    ensures x * y >= 0.0
  {
  }

  lemma QuotientIs(x: real, d: real, q: real)
    requires d != 0.0 && q * d == x
    ensures x / d == q
  {
  }

  lemma QuotientAtMost(outflow: real, ratio: real, revenue: real)
    requires ratio > 0.0
    ensures outflow / ratio <= revenue <==> outflow <= revenue * ratio
  {
    var y := outflow / ratio;
    assert y * ratio == outflow;
    assert (revenue - y) * ratio == revenue * ratio - outflow;
    if y > revenue { assert (y - revenue) * ratio > 0.0; }
  }

  lemma MulMonotone(a: real, b: real, c: real, d: real)
    requires 0.0 <= a <= b && 0.0 <= c <= d
    ensures 0.0 <= a * c <= b * d
  {
    MulNonNegative(b - a, c);
    MulNonNegative(b, d - c);
    MulNonNegative(a, c);
  }

  lemma TimesMonotone(x: real, y: real, u: real, v: real)
    requires 0.0 <= x <= y && 0.0 <= u <= v
    ensures Times(x, u) <= Times(y, v)
  {
    MulMonotone(x, y, u, v);
  }

  lemma TimesSum(a: real, b: real, c: real)
    ensures Times(a + b, c) == Times(a, c) + Times(b, c)
  {
  }

  lemma QuotientMonotone(a: real, b: real, n: real)
    requires n > 0.0
    ensures a <= b ==> a / n <= b / n
  {
    assert b / n * n == b;
    QuotientAtMost(a, n, b / n);
  }
}
