/**
 What the vector kernels compute, without the way they are computed: normalisation to unit mean square, softmax as
 the distribution proportional to the exponentials, rotations by angles that only differ in position, the gate.
 */
module KernelLaws {
  import opened Kernels

  // ---- RMS normalisation ---------------------------------------------------------------------

  /** The sum of the squares, from the front. */
  function Energy(x: seq<real>): real { if x == [] then 0.0 else x[0] * x[0] + Energy(x[1..]) }

  lemma {:induction false} EnergyIs(x: seq<real>)
    ensures SumSquares(x) == Energy(x)
  {
    if x != [] {
      EnergyLast(x);
      EnergyIs(x[..|x| - 1]);
    }
  }

  lemma {:induction false} EnergyLast(x: seq<real>)
    requires x != []
    ensures Energy(x) == Energy(x[..|x| - 1]) + x[|x| - 1] * x[|x| - 1]
  {
    if |x| == 1 {
      assert x[1..] == [] && x[..0] == [];
    } else {
      EnergyLast(x[1..]);
      assert x[..|x| - 1][1..] == x[1..][..|x| - 2];
    }
  }

  /** The mean of the squares. */
  function MeanSquare(x: seq<real>): real
    requires x != []
  {
    Energy(x) / (|x| as real)
  }

  /** `rsqrt` is one over the square root. */
  ghost predicate IsRsqrt(lm: Libm) { forall y: real | y > 0.0 :: lm.rsqrt(y) > 0.0 && lm.rsqrt(y) * lm.rsqrt(y) * y == 1.0 }

  /** The weights scale the elements and nothing else: what two weight vectors make differs by their ratio. */
  lemma WeightsScale(lm: Libm, x: seq<real>, w: seq<real>, u: seq<real>, i: nat)
    requires x != [] && |w| == |u| == |x| && i < |x|
    ensures RmsNorm(lm, x, w)[i] * u[i] == RmsNorm(lm, x, u)[i] * w[i]
  {
    var y := RmsFactor(lm, x) * x[i];
    assert (w[i] * y) * u[i] == (u[i] * y) * w[i];
  }

  ghost predicate Ones(w: seq<real>) { forall i | 0 <= i < |w| :: w[i] == 1.0 }

  /** Without weights the direction stays. */
  lemma DirectionStays(lm: Libm, x: seq<real>, w: seq<real>, i: nat, j: nat)
    requires x != [] && |w| == |x| && Ones(w) && i < |x| && j < |x| && IsRsqrt(lm)
    ensures RmsNorm(lm, x, w)[i] * x[j] == RmsNorm(lm, x, w)[j] * x[i]
    ensures x[i] > 0.0 ==> RmsNorm(lm, x, w)[i] > 0.0
  {
    hide RmsNorm, RmsFactor;
    FactorPositive(lm, x);
    OneWeight(lm, x, w, i);
    OneWeight(lm, x, w, j);
    Swapped(RmsFactor(lm, x), x[i], x[j]);
  }

  lemma FactorPositive(lm: Libm, x: seq<real>)
    requires x != [] && IsRsqrt(lm)
    ensures RmsFactor(lm, x) > 0.0
  {
    EnergyIs(x);
    MeanPositive(x);
  }

  lemma Swapped(f: real, a: real, b: real)
    requires f > 0.0
    ensures (f * a) * b == (f * b) * a && (a > 0.0 ==> f * a > 0.0)
  {
  }

  lemma {:induction false} EnergyPositive(x: seq<real>)
    ensures Energy(x) >= 0.0
  {
    if x != [] { EnergyPositive(x[1..]); }
  }

  lemma MeanPositive(x: seq<real>)
    requires x != []
    ensures MeanSquare(x) >= 0.0
  {
    EnergyPositive(x);
    Quotient(Energy(x), |x| as real);
  }

  lemma Quotient(a: real, b: real)
    requires a >= 0.0 && b > 0.0
    ensures a / b >= 0.0
  {
  }

  lemma {:induction false} EnergyScales(x: seq<real>, y: seq<real>, f: real)
    requires |y| == |x| && forall i | 0 <= i < |x| :: y[i] == f * x[i]
    ensures Energy(y) == (f * f) * Energy(x)
  {
    if x != [] {
      EnergyScales(x[1..], y[1..], f);
      Square(f, x[0], Energy(x[1..]));
    }
  }

  lemma Square(f: real, a: real, e: real)
    ensures (f * a) * (f * a) + (f * f) * e == (f * f) * (a * a + e)
  {
  }

  /** Without weights the mean square becomes one, but for the constant that keeps it defined at zero. */
  lemma UnitMeanSquare(lm: Libm, x: seq<real>, w: seq<real>)
    requires x != [] && |w| == |x| && Ones(w) && IsRsqrt(lm)
    ensures MeanSquare(x) + 0.00001 > 0.0
    ensures MeanSquare(RmsNorm(lm, x, w)) == MeanSquare(x) / (MeanSquare(x) + 0.00001)
  {
    hide RmsNorm, RmsFactor, Energy;
    var f, y, ms := RmsFactor(lm, x), RmsNorm(lm, x, w), MeanSquare(x);
    FactorSquared(lm, x);
    forall i | 0 <= i < |x| ensures y[i] == f * x[i] { OneWeight(lm, x, w, i); }
    EnergyScales(x, y, f);
    MeanScales(f * f, Energy(x), |x| as real, ms + 0.00001);
  }

  lemma FactorSquared(lm: Libm, x: seq<real>)
    requires x != [] && IsRsqrt(lm)
    ensures MeanSquare(x) + 0.00001 > 0.0
    ensures (RmsFactor(lm, x) * RmsFactor(lm, x)) * (MeanSquare(x) + 0.00001) == 1.0
  {
    EnergyIs(x);
    MeanPositive(x);
    assert RmsFactor(lm, x) == lm.rsqrt(MeanSquare(x) + 0.00001);
  }

  lemma OneWeight(lm: Libm, x: seq<real>, w: seq<real>, i: nat)
    requires x != [] && |w| == |x| && Ones(w) && i < |x|
    ensures RmsNorm(lm, x, w)[i] == RmsFactor(lm, x) * x[i]
  {
  }

  lemma MeanScales(g: real, e: real, n: real, d: real)
    requires n > 0.0 && d > 0.0 && g * d == 1.0
    ensures g * e / n == e / n / d
  {
    var m := e / n;
    assert g * e / n == g * m;
    assert m / d * d == m;
    assert (g * m - m / d) * d == 0.0 by { assert g * m * d == m * (g * d); }
  }

  // ---- softmax -------------------------------------------------------------------------------

  /** The exponential turns sums into products and is positive. */
  ghost predicate IsExp(lm: Libm) {
    (forall a: real, b: real :: SumToProduct(lm, a, b)) && forall a: real :: lm.exp(a) > 0.0
  }

  predicate SumToProduct(lm: Libm, a: real, b: real) { lm.exp(a + b) == lm.exp(a) * lm.exp(b) }

  lemma ExpPositive(lm: Libm, x: real)
    requires IsExp(lm)
    ensures lm.exp(x) > 0.0
  {
  }

  lemma PositiveQuotient(a: real, b: real)
    requires a > 0.0 && b > 0.0
    ensures a / b > 0.0
  {
  }

  /** The sum, from the front. */
  function Sum(v: seq<real>): real { if v == [] then 0.0 else v[0] + Sum(v[1..]) }

  lemma {:induction false} SumIs(v: seq<real>)
    ensures SumOf(v) == Sum(v)
  {
    if v != [] {
      SumLast(v);
      SumIs(v[..|v| - 1]);
    }
  }

  lemma {:induction false} SumLast(v: seq<real>)
    requires v != []
    ensures Sum(v) == Sum(v[..|v| - 1]) + v[|v| - 1]
  {
    if |v| == 1 {
      assert v[1..] == [] && v[..0] == [];
    } else {
      SumLast(v[1..]);
      assert v[..|v| - 1][1..] == v[1..][..|v| - 2];
    }
  }

  lemma {:induction false} SumPositive(v: seq<real>)
    requires v != [] && forall i | 0 <= i < |v| :: v[i] > 0.0
    ensures Sum(v) > 0.0
  {
    if |v| > 1 { SumPositive(v[1..]); } else { assert v[1..] == []; }
  }

  lemma {:induction false} SumScales(v: seq<real>, w: seq<real>, f: real)
    requires |v| == |w| && forall i | 0 <= i < |v| :: w[i] == v[i] * f
    ensures Sum(w) == Sum(v) * f
  {
    if v != [] {
      SumScales(v[1..], w[1..], f);
      assert (v[0] + Sum(v[1..])) * f == v[0] * f + Sum(v[1..]) * f;
    }
  }

  /** The exponentials of a vector. */
  function ExpOf(lm: Libm, v: seq<real>): (e: seq<real>)
    ensures |e| == |v|
  {
    seq(|v|, i requires 0 <= i < |v| => lm.exp(v[i]))
  }

  /** Softmax is the distribution proportional to the exponentials. */
  lemma SoftmaxIs(lm: Libm, v: seq<real>)
    requires v != [] && IsExp(lm)
    ensures Sum(ExpOf(lm, v)) > 0.0
    ensures forall i | 0 <= i < |v| :: Softmax(lm, v)[i] == lm.exp(v[i]) / Sum(ExpOf(lm, v))
  {
    hide IsExp, Softmax, Sum, ExpOf;
    TotalShifted(lm, v);
    forall i | 0 <= i < |v| ensures Softmax(lm, v)[i] == lm.exp(v[i]) / Sum(ExpOf(lm, v)) { SoftmaxAt(lm, v, i); }
  }

  lemma TotalShifted(lm: Libm, v: seq<real>)
    requires v != [] && IsExp(lm)
    ensures Sum(ExpOf(lm, v)) > 0.0 && lm.exp(-MaxOf(v)) > 0.0
    ensures SumOf(Exps(lm, v)) == Sum(ExpOf(lm, v)) * lm.exp(-MaxOf(v)) > 0.0
  {
    hide MaxOf, Exps, IsExp, SumOf, Sum;
    var e, f := ExpOf(lm, v), lm.exp(-MaxOf(v));
    ShiftedIs(lm, v);
    SumPositive(e);
    SumIs(Exps(lm, v));
    SumScales(e, Exps(lm, v), f);
    Cancel(0.0, Sum(e), f);
  }

  lemma SoftmaxAt(lm: Libm, v: seq<real>, i: nat)
    requires v != [] && IsExp(lm) && i < |v|
    ensures Sum(ExpOf(lm, v)) > 0.0
    ensures Softmax(lm, v)[i] == lm.exp(v[i]) / Sum(ExpOf(lm, v))
  {
    hide IsExp, Exps, MaxOf, Sum, SumOf, ExpOf;
    TotalShifted(lm, v);
    ShiftedIs(lm, v);
    Cancel(lm.exp(v[i]), Sum(ExpOf(lm, v)), lm.exp(-MaxOf(v)));
  }

  /** Taking the maximum away scales the exponentials. */
  lemma ShiftedIs(lm: Libm, v: seq<real>)
    requires v != [] && IsExp(lm)
    ensures lm.exp(-MaxOf(v)) > 0.0 && forall i | 0 <= i < |v| :: lm.exp(v[i]) > 0.0
    ensures forall i | 0 <= i < |v| :: Exps(lm, v)[i] == lm.exp(v[i]) * lm.exp(-MaxOf(v))
  {
    hide MaxOf, SumToProduct;
    forall i | 0 <= i < |v| ensures Exps(lm, v)[i] == lm.exp(v[i]) * lm.exp(-MaxOf(v)) {
      assert SumToProduct(lm, v[i], -MaxOf(v));
      Shift(lm, v[i], MaxOf(v));
    }
  }

  lemma Shift(lm: Libm, a: real, m: real)
    requires SumToProduct(lm, a, -m)
    ensures lm.exp(a - m) == lm.exp(a) * lm.exp(-m)
  {
    assert a + -m == a - m;
  }

  lemma Cancel(a: real, b: real, f: real)
    requires b > 0.0 && f > 0.0
    ensures b * f > 0.0 && (a * f) / (b * f) == a / b
  {
    var q := a / b;
    assert a == q * b;
    assert a * f == q * (b * f);
  }

  /** So it adds up to one. */
  lemma SoftmaxSums(lm: Libm, v: seq<real>)
    requires v != [] && IsExp(lm)
    ensures Sum(Softmax(lm, v)) == 1.0
  {
    hide Softmax, IsExp, Sum;
    var e, p := ExpOf(lm, v), Softmax(lm, v);
    SoftmaxIs(lm, v);
    var total := Sum(e);
    var f := Inverse(total);
    forall i | 0 <= i < |v| ensures p[i] == e[i] * f { InverseTimes(e[i], total); }
    SumScales(e, p, f);
  }

  function Inverse(x: real): (r: real)
    requires x > 0.0
    ensures x * r == 1.0
  {
    1.0 / x
  }

  lemma InverseTimes(a: real, x: real)
    requires x > 0.0
    ensures a / x == a * Inverse(x)
  {
  }

  // ---- rotary position embedding -------------------------------------------------------------

  /** The addition laws of cosine and sine. */
  ghost predicate IsCircular(lm: Libm) {
    && lm.cos(0.0) == 1.0 && lm.sin(0.0) == 0.0
    && (forall a: real :: lm.cos(a) * lm.cos(a) + lm.sin(a) * lm.sin(a) == 1.0)
    && (forall a: real, b: real :: TurnsBack(lm, a, b))
  }

  predicate TurnsBack(lm: Libm, a: real, b: real) {
    && lm.cos(a - b) == lm.cos(a) * lm.cos(b) + lm.sin(a) * lm.sin(b)
    && lm.sin(a - b) == lm.sin(a) * lm.cos(b) - lm.cos(a) * lm.sin(b)
  }

  lemma PairIs(lm: Libm, v: seq<real>, headSize: nat, pos: nat, i: nat)
    requires headSize > 0 && |v| % 2 == 0 && i % 2 == 0 && i < |v|
    ensures i + 1 < |v|
    ensures var a := pos as real * lm.freq(i % headSize, headSize); var r := Rotated(lm, v, headSize, pos);
            && r[i] == v[i] * lm.cos(a) - v[i + 1] * lm.sin(a)
            && r[i + 1] == v[i] * lm.sin(a) + v[i + 1] * lm.cos(a)
  {
    hide Angle;
    var r := Rotated(lm, v, headSize, pos);
    assert (i + 1) % 2 == 1;
    assert r[i] == RotatedAt(lm, v, headSize, pos, i) && r[i + 1] == RotatedAt(lm, v, headSize, pos, i + 1);
    AngleIs(lm, i, headSize, pos);
  }

  lemma AngleIs(lm: Libm, i: nat, headSize: nat, pos: nat)
    requires headSize > 0
    ensures Angle(lm, i, headSize, pos) == pos as real * lm.freq(i % headSize, headSize)
  {
  }

  /** The squared length of a pair. */
  function PairLength(v: seq<real>, i: nat): real
    requires i + 1 < |v|
  {
    v[i] * v[i] + v[i + 1] * v[i + 1]
  }

  lemma TurnKeeps(c: real, s: real, x: real, y: real)
    requires c * c + s * s == 1.0
    ensures (x * c - y * s) * (x * c - y * s) + (x * s + y * c) * (x * s + y * c) == x * x + y * y
  {
    var p, q := x * c, y * s;
    assert (p - q) * (p - q) == p * p - 2.0 * (p * q) + q * q;
    var t, u := x * s, y * c;
    assert (t + u) * (t + u) == t * t + 2.0 * (t * u) + u * u;
    assert p * q == t * u by { assert (x * c) * (y * s) == (x * s) * (y * c); }
    assert p * p == (x * x) * (c * c) && t * t == (x * x) * (s * s);
    assert q * q == (y * y) * (s * s) && u * u == (y * y) * (c * c);
    assert (x * x) * (c * c) + (x * x) * (s * s) == (x * x) * (c * c + s * s);
    assert (y * y) * (s * s) + (y * y) * (c * c) == (y * y) * (c * c + s * s);
  }

  /** Rotation keeps the length of every pair. */
  lemma RotationKeepsLength(lm: Libm, v: seq<real>, headSize: nat, pos: nat, i: nat)
    requires headSize > 0 && |v| % 2 == 0 && i % 2 == 0 && i < |v| && IsCircular(lm)
    ensures i + 1 < |v| && PairLength(Rotated(lm, v, headSize, pos), i) == PairLength(v, i)
  {
    hide Rotated;
    PairIs(lm, v, headSize, pos, i);
    var a := pos as real * lm.freq(i % headSize, headSize);
    TurnKeeps(lm.cos(a), lm.sin(a), v[i], v[i + 1]);
  }

  /** The product of two pairs, and how far the second is turned from the first, times their lengths. */
  function Dot2(x: real, y: real, u: real, v: real): real { x * u + y * v }

  function Cross2(x: real, y: real, u: real, v: real): real { x * v - y * u }

  function PairDot(v: seq<real>, w: seq<real>, i: nat): real
    requires i + 1 < |v| && i + 1 < |w|
  {
    Dot2(v[i], v[i + 1], w[i], w[i + 1])
  }

  function PairCross(v: seq<real>, w: seq<real>, i: nat): real
    requires i + 1 < |v| && i + 1 < |w|
  {
    Cross2(v[i], v[i + 1], w[i], w[i + 1])
  }

  /** A pair turned by the angle with cosine `c` and sine `s`. */
  function TurnX(c: real, s: real, x: real, y: real): real { x * c - y * s }

  function TurnY(c: real, s: real, x: real, y: real): real { x * s + y * c }

  lemma TurnedDot(c: real, s: real, d: real, t: real, x: real, y: real, u: real, v: real)
    ensures Dot2(TurnX(c, s, x, y), TurnY(c, s, x, y), TurnX(d, t, u, v), TurnY(d, t, u, v)) ==
            Dot2(Dot2(x, y, u, v), Cross2(x, y, u, v), Dot2(c, s, d, t), Cross2(d, t, c, s))
  {
    Four(x * c, y * s, u * d, v * t);
    Four(x * s, -(y * c), u * t, -(v * d));
    Regrouped(x, u, c, d, s, t);
    Regrouped(y, v, s, t, c, d);
    Crossed(x, v, s, d, c, t);
    Crossed(y, u, s, d, c, t);
    Outer(x * u, y * v, c * d + s * t);
    Outer(x * v, -(y * u), s * d - c * t);
  }

  lemma Outer(p: real, q: real, m: real)
    ensures (p + q) * m == p * m + q * m
  {
  }

  lemma Four(p: real, q: real, m: real, n: real)
    ensures (p - q) * (m - n) == p * m - p * n - q * m + q * n
  {
  }

  lemma Regrouped(x: real, u: real, c: real, d: real, s: real, t: real)
    ensures (x * c) * (u * d) + (x * s) * (u * t) == (x * u) * (c * d + s * t)
  {
    assert (x * c) * (u * d) == (x * u) * (c * d) && (x * s) * (u * t) == (x * u) * (s * t);
  }

  lemma Crossed(x: real, v: real, s: real, d: real, c: real, t: real)
    ensures (x * s) * (v * d) - (x * c) * (v * t) == (x * v) * (s * d - c * t)
  {
    assert (x * s) * (v * d) == (x * v) * (s * d) && (x * c) * (v * t) == (x * v) * (c * t);
  }

  /**
   The product of a query rotated at position `p` with a key rotated at `t` is that of the originals turned by an
   angle that only depends on how far apart the positions are.
   */
  lemma OnlyDistanceMatters(lm: Libm, q: seq<real>, k: seq<real>, headSize: nat, p: nat, t: nat, i: nat)
    requires headSize > 0 && |q| % 2 == 0 && |k| % 2 == 0 && i % 2 == 0 && i < |q| && i < |k| && IsCircular(lm)
    ensures i + 1 < |q| && i + 1 < |k|
    ensures var far := (p as real - t as real) * lm.freq(i % headSize, headSize);
            PairDot(Rotated(lm, q, headSize, p), Rotated(lm, k, headSize, t), i) ==
            Dot2(PairDot(q, k, i), PairCross(q, k, i), lm.cos(far), lm.sin(far))
  {
    hide Rotated, IsCircular, TurnX, TurnY, Dot2, Cross2;
    var a, b := p as real * lm.freq(i % headSize, headSize), t as real * lm.freq(i % headSize, headSize);
    TurnedPair(lm, q, headSize, p, i, a);
    TurnedPair(lm, k, headSize, t, i, b);
    Apart(p as real, t as real, lm.freq(i % headSize, headSize));
    Addition(lm, a, b);
    TurnedDot(lm.cos(a), lm.sin(a), lm.cos(b), lm.sin(b), q[i], q[i + 1], k[i], k[i + 1]);
  }

  lemma TurnedPair(lm: Libm, v: seq<real>, headSize: nat, pos: nat, i: nat, a: real)
    requires headSize > 0 && |v| % 2 == 0 && i % 2 == 0 && i < |v|
    requires a == pos as real * lm.freq(i % headSize, headSize)
    ensures i + 1 < |v|
    ensures Rotated(lm, v, headSize, pos)[i] == TurnX(lm.cos(a), lm.sin(a), v[i], v[i + 1])
    ensures Rotated(lm, v, headSize, pos)[i + 1] == TurnY(lm.cos(a), lm.sin(a), v[i], v[i + 1])
  {
    hide Rotated;
    PairIs(lm, v, headSize, pos, i);
  }

  lemma Apart(p: real, t: real, f: real)
    ensures (p - t) * f == p * f - t * f
  {
  }

  lemma Addition(lm: Libm, a: real, b: real)
    requires IsCircular(lm)
    ensures Dot2(lm.cos(a), lm.sin(a), lm.cos(b), lm.sin(b)) == lm.cos(a - b)
    ensures Cross2(lm.cos(b), lm.sin(b), lm.cos(a), lm.sin(a)) == lm.sin(a - b)
  {
    assert TurnsBack(lm, a, b);
  }

  /** At the first position nothing is turned. */
  lemma FirstPositionStays(lm: Libm, v: seq<real>, headSize: nat)
    requires headSize > 0 && |v| % 2 == 0 && IsCircular(lm)
    ensures Rotated(lm, v, headSize, 0) == v
  {
    hide Rotated;
    forall i | 0 <= i < |v| ensures Rotated(lm, v, headSize, 0)[i] == v[i] {
      PairIs(lm, v, headSize, 0, i - i % 2);
      assert 0.0 * lm.freq((i - i % 2) % headSize, headSize) == 0.0;
    }
  }

  // ---- the gate ------------------------------------------------------------------------------

  ghost predicate IsSigmoid(lm: Libm) {
    (forall x: real :: lm.sigmoid(x) + lm.sigmoid(-x) == 1.0) && forall x: real | x > 0.0 :: lm.sigmoid(x) > 0.5
  }

  /** Element by element: linear in the second vector, and a gate of the first that passes more than it holds back. */
  lemma GateLaw(lm: Libm, a: seq<real>, n: seq<real>, b: seq<real>, i: nat)
    requires IsSigmoid(lm) && |a| == |n| == |b| && i < |a| && n[i] == -a[i]
    ensures Gated(lm, a, b)[i] - Gated(lm, n, b)[i] == a[i] * b[i]
    ensures a[i] > 0.0 && b[i] > 0.0 ==> Gated(lm, a, b)[i] > a[i] * b[i] / 2.0
  {
    var x, s := a[i], lm.sigmoid(a[i]);
    assert lm.sigmoid(-x) == 1.0 - s;
    assert x * s - -x * (1.0 - s) == x;
    assert (x * s) * b[i] - (-x * (1.0 - s)) * b[i] == (x * s - -x * (1.0 - s)) * b[i];
    if x > 0.0 && b[i] > 0.0 { HalfPasses(x, s, b[i]); }
  }

  lemma HalfPasses(x: real, s: real, b: real)
    requires x > 0.0 && b > 0.0 && s > 0.5
    ensures (x * s) * b > x * b / 2.0
  {
    assert (x * b) * (s - 0.5) > 0.0;
    assert (x * s) * b == (x * b) * s;
  }

  lemma GateIsLinear(lm: Libm, a: seq<real>, b: seq<real>, d: seq<real>, i: nat)
    requires |a| == |b| == |d| && i < |a|
    ensures Gated(lm, a, b)[i] * d[i] == Gated(lm, a, d)[i] * b[i]
    ensures Gated(lm, a, Added(b, d))[i] == Gated(lm, a, b)[i] + Gated(lm, a, d)[i]
  {
    var g := Silu(lm, a[i]);
    assert (g * b[i]) * d[i] == (g * d[i]) * b[i];
    assert g * (b[i] + d[i]) == g * b[i] + g * d[i];
  }

  /** Adding is undone by taking away. */
  lemma AddedLaw(x: seq<real>, y: seq<real>, i: nat)
    requires |x| == |y| && i < |x|
    ensures Added(x, y)[i] - y[i] == x[i] && Added(x, y) == Added(y, x)
  {
    assert Added(x, y) == Added(y, x);
  }
}
