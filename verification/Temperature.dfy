/** What the temperature does: it divides the logits, and the lower it is the more the likeliest tokens get. */
module Temperature {
  import opened Kernels
  import opened KernelLaws
  import opened Sampling

  /** Times the temperature, the tempered logits are the logits; temperature one changes nothing. */
  lemma TemperedUndone(v: seq<real>, t: real, i: nat)
    requires t != 0.0 && i < |v|
    ensures Tempered(v, t)[i] * t == v[i]
    ensures Tempered(v, 1.0) == v
  {
  }

  lemma GapGrows(d: real, t: real, s: real)
    requires 0.0 < t < s && d > 0.0
    ensures d / t > d / s > 0.0
  {
    var a, b := d / t, d / s;
    assert a * t == d && b * s == d;
    assert b > 0.0;
    assert a * t == b * t + b * (s - t) by { assert b * s == b * t + b * (s - t); }
    assert (a - b) * t == b * (s - t) > 0.0 by { assert (a - b) * t == a * t - b * t; }
    assert a > b;
  }

  /** A lower temperature widens every gap between two logits, and keeps which is the greater. */
  lemma LowerWidensGaps(v: seq<real>, t: real, s: real, i: nat, j: nat)
    requires 0.0 < t < s && i < |v| && j < |v| && v[i] > v[j]
    ensures Tempered(v, t)[i] - Tempered(v, t)[j] > Tempered(v, s)[i] - Tempered(v, s)[j] > 0.0
  {
    GapGrows(v[i] - v[j], t, s);
    Split(v[i], v[j], t);
    Split(v[i], v[j], s);
  }

  lemma Split(a: real, b: real, t: real)
    requires t > 0.0
    ensures a / t - b / t == (a - b) / t
  {
  }

  /** How likely every token is against token `k`. */
  function Against(lm: Libm, u: seq<real>, k: nat): (r: seq<real>)
    requires k < |u|
    ensures |r| == |u|
  {
    seq(|u|, j requires 0 <= j < |u| => lm.exp(u[j] - u[k]))
  }

  /** The probability of a token is one over the sum of the others' likelihoods against it and its own. */
  lemma ProbabilityIs(lm: Libm, u: seq<real>, k: nat)
    requires IsExp(lm) && k < |u|
    ensures Sum(Against(lm, u, k)) > 0.0 && Softmax(lm, u)[k] == 1.0 / Sum(Against(lm, u, k))
  {
    hide Softmax, IsExp, Sum, ExpOf, Against;
    SoftmaxIs(lm, u);
    AgainstScales(lm, u, k);
    var e := ExpOf(lm, u);
    SumScales(Against(lm, u, k), e, lm.exp(u[k]));
    OneOver(lm.exp(u[k]), Sum(Against(lm, u, k)), Sum(e));
  }

  lemma AgainstScales(lm: Libm, u: seq<real>, k: nat)
    requires IsExp(lm) && k < |u|
    ensures lm.exp(u[k]) > 0.0 && Sum(ExpOf(lm, u)) > 0.0
    ensures forall j | 0 <= j < |u| :: ExpOf(lm, u)[j] == Against(lm, u, k)[j] * lm.exp(u[k])
  {
    hide SumToProduct, Sum;
    ExpPositive(lm, u[k]);
    forall j | 0 <= j < |u| ensures ExpOf(lm, u)[j] > 0.0 { ExpPositive(lm, u[j]); }
    KernelLaws.SumPositive(ExpOf(lm, u));
    forall j | 0 <= j < |u| ensures ExpOf(lm, u)[j] == Against(lm, u, k)[j] * lm.exp(u[k]) {
      assert SumToProduct(lm, u[j] - u[k], u[k]);
      Back(lm, u[j], u[k]);
    }
  }

  lemma Back(lm: Libm, a: real, b: real)
    requires SumToProduct(lm, a - b, b)
    ensures lm.exp(a) == lm.exp(a - b) * lm.exp(b)
  {
    assert a - b + b == a;
  }

  lemma OneOver(f: real, r: real, total: real)
    requires f > 0.0 && total > 0.0 && total == r * f
    ensures r > 0.0 && f / total == 1.0 / r
  {
    assert r > 0.0;
    var q := 1.0 / r;
    assert q * r == 1.0;
    assert q * total == f by { assert q * (r * f) == (q * r) * f; }
  }

  ghost predicate Growing(lm: Libm) { forall a: real, b: real | a <= b :: lm.exp(a) <= lm.exp(b) }

  lemma {:induction false} SumMonotone(v: seq<real>, w: seq<real>)
    requires |v| == |w| && forall j | 0 <= j < |v| :: v[j] <= w[j]
    ensures Sum(v) <= Sum(w)
  {
    if v != [] { SumMonotone(v[1..], w[1..]); }
  }

  lemma InverseFalls(a: real, b: real)
    requires 0.0 < a <= b
    ensures 1.0 / a >= 1.0 / b
  {
    var p, q := 1.0 / a, 1.0 / b;
    assert p * a == 1.0 && q * b == 1.0;
    assert q * (b - a) >= 0.0;
    assert (q - p) * a <= 0.0;
  }

  lemma ShrunkAgainst(d: real, t: real, s: real)
    requires 0.0 < t < s && d <= 0.0
    ensures d / t <= d / s
  {
    if d < 0.0 {
      GapGrows(-d, t, s);
      assert -d / t == -(d / t) && -d / s == -(d / s);
    }
  }

  /** So a lower temperature never makes a likeliest token less likely. */
  lemma LowerFavoursLargest(lm: Libm, v: seq<real>, t: real, s: real, k: nat)
    requires IsExp(lm) && Growing(lm) && 0.0 < t < s && k < |v| && forall i | 0 <= i < |v| :: v[i] <= v[k]
    ensures Softmax(lm, Tempered(v, t))[k] >= Softmax(lm, Tempered(v, s))[k]
  {
    hide Softmax, Sum, IsExp;
    var a, b := Tempered(v, t), Tempered(v, s);
    ProbabilityIs(lm, a, k);
    ProbabilityIs(lm, b, k);
    forall j | 0 <= j < |v| ensures Against(lm, a, k)[j] <= Against(lm, b, k)[j] {
      ShrunkAgainst(v[j] - v[k], t, s);
      Split(v[j], v[k], t);
      Split(v[j], v[k], s);
    }
    SumMonotone(Against(lm, a, k), Against(lm, b, k));
    InverseFalls(Sum(Against(lm, a, k)), Sum(Against(lm, b, k)));
  }
}
