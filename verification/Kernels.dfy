/**
 The vector kernels of the forward pass: RMS normalisation, softmax, rotary position embedding and the
 gated feed-forward product. Each is a function on vectors and a method that fills an array in place.
 */
module Kernels {

  /**
   The transcendental functions: `rsqrt(x)` is 1 / sqrt(x), `freq(d, n)` is 10000 ^ (-d / n), and
   `sigmoid(x)` is 1 / (1 + exp(-x)).
   */
  datatype Libm = Libm(
    rsqrt: real -> real,
    freq: (nat, nat) -> real,
    cos: real -> real,
    sin: real -> real,
    exp: real -> real,
    sigmoid: real -> real)

  // ---- RMS normalisation ---------------------------------------------------------------------

  function SumSquares(x: seq<real>): real {
    if x == [] then 0.0 else SumSquares(x[..|x| - 1]) + x[|x| - 1] * x[|x| - 1]
  }

  const EPS := 0.00001

  function RmsFactor(lm: Libm, x: seq<real>): real
    requires x != []
  {
    lm.rsqrt(SumSquares(x) / (|x| as real) + EPS)
  }

  function Weighed(w: real, factor: real, x: real): real { w * (factor * x) }

  function RmsNorm(lm: Libm, x: seq<real>, w: seq<real>): (r: seq<real>)
    requires x != [] && |w| == |x|
    ensures |r| == |x|
  {
    seq(|x|, i requires 0 <= i < |x| => Weighed(w[i], RmsFactor(lm, x), x[i]))
  }

  method NormaliseInto(lm: Libm, out: array<real>, x: array<real>, w: seq<real>)
    requires out.Length == x.Length == |w| > 0 && out != x
    modifies out
    ensures out[..] == RmsNorm(lm, x[..], w)
  {
    hide Weighed;
    var n := x.Length;
    var ss := 0.0;
    var i := 0;
    while i < n
      modifies {}
      invariant 0 <= i <= n
      invariant ss == SumSquares(x[..i])
    {
      assert x[..i + 1][..i] == x[..i];
      ss := ss + x[i] * x[i];
      i := i + 1;
    }
    assert x[..n] == x[..];
    var factor := lm.rsqrt(ss / (n as real) + EPS);
    assert factor == RmsFactor(lm, x[..]);
    i := 0;
    while i < n
      invariant 0 <= i <= n
      invariant forall k | 0 <= k < i :: out[k] == Weighed(w[k], factor, x[k])
    {
      out[i] := Weighed(w[i], factor, x[i]);
      i := i + 1;
    }
    assert out[..] == RmsNorm(lm, x[..], w);
  }

  // ---- softmax -------------------------------------------------------------------------------

  function MaxOf(v: seq<real>): (m: real)
    requires v != []
    ensures m in v && forall i | 0 <= i < |v| :: v[i] <= m
  {
    if |v| == 1 then v[0]
    else
      var m, a := MaxOf(v[..|v| - 1]), v[|v| - 1];
      if a > m then a else m
  }

  function SumOf(v: seq<real>): real {
    if v == [] then 0.0 else SumOf(v[..|v| - 1]) + v[|v| - 1]
  }

  function Exps(lm: Libm, v: seq<real>): (r: seq<real>)
    requires v != []
    ensures |r| == |v|
  {
    seq(|v|, i requires 0 <= i < |v| => lm.exp(v[i] - MaxOf(v)))
  }

  function Softmax(lm: Libm, v: seq<real>): (r: seq<real>)
    requires v != []
    ensures |r| == |v|
  {
    var e := Exps(lm, v);
    var total := SumOf(e);
    if total > 0.0 then seq(|v|, i requires 0 <= i < |v| => e[i] / total) else e
  }

  /** The part of an array from `lo`, of length `n`. */
  function Slice<T>(a: seq<T>, lo: nat, n: nat): (r: seq<T>)
    requires lo + n <= |a|
    ensures |r| == n && forall i | 0 <= i < n :: r[i] == a[lo + i]
  {
    a[lo..lo + n]
  }

  lemma MaxOfNext(v: seq<real>, k: nat)
    requires k < |v|
    ensures k == 0 ==> MaxOf(v[..1]) == v[0]
    ensures k > 0 ==> MaxOf(v[..k + 1]) == if v[k] > MaxOf(v[..k]) then v[k] else MaxOf(v[..k])
  {
    if k > 0 {
      assert v[..k + 1][..k] == v[..k];
    }
  }

  method MaxInto(x: array<real>, lo: nat, n: nat) returns (max: real)
    requires lo + n <= x.Length && n > 0
    ensures max == MaxOf(Slice(x[..], lo, n))
  {
    hide MaxOf;
    max := x[lo];
    ghost var v := Slice(x[..], lo, n);
    var i := 1;
    MaxOfNext(v, 0);
    while i < n
      invariant 1 <= i <= n
      invariant max == MaxOf(v[..i])
    {
      MaxOfNext(v, i);
      assert v[i] == x[lo + i];
      if x[lo + i] > max { max := x[lo + i]; }
      i := i + 1;
    }
    assert v[..n] == v;
  }

  method ExpInto(lm: Libm, x: array<real>, lo: nat, n: nat, max: real) returns (sum: real)
    requires lo + n <= x.Length && n > 0 && max == MaxOf(Slice(x[..], lo, n))
    modifies x
    ensures Slice(x[..], lo, n) == Exps(lm, old(Slice(x[..], lo, n))) && sum == SumOf(Slice(x[..], lo, n))
    ensures forall i | 0 <= i < x.Length && !(lo <= i < lo + n) :: x[i] == old(x[i])
  {
    hide MaxOf;
    ghost var v := Slice(x[..], lo, n);
    ghost var e := Exps(lm, v);
    sum := 0.0;
    var i := 0;
    while i < n
      invariant 0 <= i <= n
      invariant forall k {:trigger x[k]} | lo <= k < lo + i :: x[k] == e[k - lo]
      invariant forall k {:trigger x[k]} | lo + i <= k < lo + n :: x[k] == v[k - lo]
      invariant forall k | 0 <= k < x.Length && !(lo <= k < lo + n) :: x[k] == old(x[k])
      invariant sum == SumOf(e[..i])
    {
      assert e[..i + 1][..i] == e[..i];
      assert e[i] == lm.exp(x[lo + i] - max);
      x[lo + i] := lm.exp(x[lo + i] - max);
      sum := sum + x[lo + i];
      i := i + 1;
    }
    assert Slice(x[..], lo, n) == e && e[..n] == e;
  }

  method DivideInto(x: array<real>, lo: nat, n: nat, sum: real)
    requires lo + n <= x.Length && sum > 0.0
    modifies x
    ensures forall i {:trigger x[i]} | lo <= i < lo + n :: x[i] == old(x[i]) / sum
    ensures forall i | 0 <= i < x.Length && !(lo <= i < lo + n) :: x[i] == old(x[i])
  {
    var i := 0;
    while i < n
      invariant 0 <= i <= n
      invariant forall k {:trigger x[k]} | lo <= k < lo + i :: x[k] == old(x[k]) / sum
      invariant forall k | 0 <= k < x.Length && !(lo <= k < lo + i) :: x[k] == old(x[k])
    {
      x[lo + i] := x[lo + i] / sum;
      i := i + 1;
    }
  }

  method SoftmaxInPlace(lm: Libm, x: array<real>, lo: nat, n: nat)
    requires lo + n <= x.Length && n > 0
    modifies x
    ensures Slice(x[..], lo, n) == Softmax(lm, old(Slice(x[..], lo, n)))
    ensures forall i | 0 <= i < x.Length && !(lo <= i < lo + n) :: x[i] == old(x[i])
  {
    hide MaxOf, Exps, SumOf;
    var max := MaxInto(x, lo, n);
    var sum := ExpInto(lm, x, lo, n, max);
    ghost var e := Slice(x[..], lo, n);
    if sum > 0.0 {
      DivideInto(x, lo, n, sum);
      assert forall i | 0 <= i < n :: Slice(x[..], lo, n)[i] == e[i] / sum;
    }
    assert Slice(x[..], lo, n) == Softmax(lm, old(Slice(x[..], lo, n)));
  }

  // ---- rotary position embedding -------------------------------------------------------------

  /** The angle of the pair that starts at index `i`. */
  function Angle(lm: Libm, i: nat, headSize: nat, pos: nat): real
    requires headSize > 0
  {
    pos as real * lm.freq(i % headSize, headSize)
  }

  function RotatedAt(lm: Libm, v: seq<real>, headSize: nat, pos: nat, i: nat): real
    requires headSize > 0 && |v| % 2 == 0 && i < |v|
  {
    var a := Angle(lm, i - i % 2, headSize, pos);
    if i % 2 == 0 then v[i] * lm.cos(a) - v[i + 1] * lm.sin(a)
    else v[i - 1] * lm.sin(a) + v[i] * lm.cos(a)
  }

  /** Each consecutive pair rotated by its angle. */
  function Rotated(lm: Libm, v: seq<real>, headSize: nat, pos: nat): (r: seq<real>)
    requires headSize > 0 && |v| % 2 == 0
    ensures |r| == |v|
  {
    seq(|v|, i requires 0 <= i < |v| => RotatedAt(lm, v, headSize, pos, i))
  }

  /** Rotate one pair of a vector. */
  method RotatePair(v: array<real>, i: nat, c: real, s: real)
    requires i + 1 < v.Length
    modifies v
    ensures v[i] == old(v[i]) * c - old(v[i + 1]) * s && v[i + 1] == old(v[i]) * s + old(v[i + 1]) * c
    ensures forall k | 0 <= k < v.Length && k != i && k != i + 1 :: v[k] == old(v[k])
  {
    var v0, v1 := v[i], v[i + 1];
    v[i] := v0 * c - v1 * s;
    v[i + 1] := v0 * s + v1 * c;
  }

  /** Pairs below `done` are rotated, the rest are as they were. */
  ghost predicate PartlyRotated(lm: Libm, now: seq<real>, was: seq<real>, headSize: nat, pos: nat, done: nat) {
    && headSize > 0 && |now| == |was| && |was| % 2 == 0
    && (forall i | 0 <= i < |was| && i < done :: now[i] == RotatedAt(lm, was, headSize, pos, i))
    && (forall i | done <= i < |was| :: now[i] == was[i])
  }

  lemma AllRotated(lm: Libm, now: seq<real>, was: seq<real>, headSize: nat, pos: nat, done: nat)
    requires PartlyRotated(lm, now, was, headSize, pos, done) && done >= |was|
    ensures now == Rotated(lm, was, headSize, pos)
  {
    hide RotatedAt;
  }

  /** Rotate a pair of a partly rotated vector. */
  method RotateNext(lm: Libm, v: array<real>, i: nat, headSize: nat, pos: nat, c: real, s: real, ghost was: seq<real>)
    requires i + 1 < v.Length && i % 2 == 0 && PartlyRotated(lm, v[..], was, headSize, pos, i)
    requires c == lm.cos(Angle(lm, i, headSize, pos)) && s == lm.sin(Angle(lm, i, headSize, pos))
    modifies v
    ensures PartlyRotated(lm, v[..], was, headSize, pos, i + 2)
  {
    hide Angle;
    RotatePair(v, i, c, s);
  }

  /** Rotate the whole of `q` and the whole of `k`, which is no longer. */
  method RotateBoth(lm: Libm, q: array<real>, k: array<real>, headSize: nat, pos: nat)
    requires headSize > 0 && q.Length % 2 == 0 && k.Length % 2 == 0 && k.Length <= q.Length && q != k
    modifies q, k
    ensures q[..] == Rotated(lm, old(q[..]), headSize, pos) && k[..] == Rotated(lm, old(k[..]), headSize, pos)
  {
    hide RotatedAt, Angle;
    ghost var q0, k0 := q[..], k[..];
    var i := 0;
    while i < q.Length
      invariant 0 <= i <= q.Length && i % 2 == 0
      invariant PartlyRotated(lm, q[..], q0, headSize, pos, i)
      invariant PartlyRotated(lm, k[..], k0, headSize, pos, i)
    {
      var a := Angle(lm, i, headSize, pos);
      var c, s := lm.cos(a), lm.sin(a);
      RotateNext(lm, q, i, headSize, pos, c, s, q0);
      if i < k.Length {
        RotateNext(lm, k, i, headSize, pos, c, s, k0);
      }
      i := i + 2;
    }
    AllRotated(lm, q[..], q0, headSize, pos, i);
    AllRotated(lm, k[..], k0, headSize, pos, i);
  }

  // ---- element-wise steps --------------------------------------------------------------------

  function Added(x: seq<real>, y: seq<real>): (r: seq<real>)
    requires |x| == |y|
    ensures |r| == |x|
  {
    seq(|x|, i requires 0 <= i < |x| => x[i] + y[i])
  }

  method AddInto(x: array<real>, y: array<real>)
    requires x.Length == y.Length && x != y
    modifies x
    ensures x[..] == Added(old(x[..]), y[..])
  {
    var i := 0;
    while i < x.Length
      invariant 0 <= i <= x.Length
      invariant forall k | 0 <= k < i :: x[k] == old(x[k]) + y[k]
      invariant forall k | i <= k < x.Length :: x[k] == old(x[k])
    {
      x[i] := x[i] + y[i];
      i := i + 1;
    }
    assert x[..] == Added(old(x[..]), y[..]);
  }

  function Silu(lm: Libm, x: real): real { x * lm.sigmoid(x) }

  function GatedAt(lm: Libm, a: real, b: real): real { Silu(lm, a) * b }

  function Gated(lm: Libm, a: seq<real>, b: seq<real>): (r: seq<real>)
    requires |a| == |b|
    ensures |r| == |a|
  {
    seq(|a|, i requires 0 <= i < |a| => GatedAt(lm, a[i], b[i]))
  }

  method GateInto(lm: Libm, a: array<real>, b: array<real>)
    requires a.Length == b.Length && a != b
    modifies a
    ensures a[..] == Gated(lm, old(a[..]), b[..])
  {
    hide GatedAt;
    var i := 0;
    while i < a.Length
      invariant 0 <= i <= a.Length
      invariant forall k | 0 <= k < i :: a[k] == GatedAt(lm, old(a[k]), b[k])
      invariant forall k | i <= k < a.Length :: a[k] == old(a[k])
    {
      a[i] := GatedAt(lm, a[i], b[i]);
      i := i + 1;
    }
    assert a[..] == Gated(lm, old(a[..]), b[..]);
  }

  method CopyInto(dst: array<real>, lo: nat, src: array<real>)
    requires lo + src.Length <= dst.Length && dst != src
    modifies dst
    ensures Slice(dst[..], lo, src.Length) == src[..]
    ensures forall i | 0 <= i < dst.Length && !(lo <= i < lo + src.Length) :: dst[i] == old(dst[i])
  {
    var i := 0;
    while i < src.Length
      invariant 0 <= i <= src.Length
      invariant forall k {:trigger dst[k]} | lo <= k < lo + i :: dst[k] == src[k - lo]
      invariant forall k | 0 <= k < dst.Length && !(lo <= k < lo + src.Length) :: dst[k] == old(dst[k])
    {
      dst[lo + i] := src[i];
      i := i + 1;
    }
  }
}
