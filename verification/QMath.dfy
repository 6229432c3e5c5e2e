/**
 The numeric primitives of the engine over the reals: Q8_0 quantisation, the quantised matrix product,
 softmax and RMS normalisation, each filling its output in place.
 */
module QMath {

  function Abs(x: real): real { if x < 0.0 then -x else x }

  /** Round half away from zero, as `roundf` does. */
  function Round(x: real): int {
    if x >= 0.0 then (x + 0.5).Floor else -((0.0 - x + 0.5).Floor)
  }

  /** The largest magnitude in a vector. */
  function MaxAbs(v: seq<real>): (m: real)
    ensures m >= 0.0 && forall i | 0 <= i < |v| :: Abs(v[i]) <= m
    ensures m > 0.0 ==> exists i | 0 <= i < |v| :: Abs(v[i]) == m
  {
    if v == [] then 0.0
    else
      var m, a := MaxAbs(v[..|v| - 1]), Abs(v[|v| - 1]);
      if a > m then a else m
  }

  // ---- quantisation --------------------------------------------------------------------------

  /** A quantised vector: one integer an element, one scale a group. */
  datatype Quant = Quant(q: seq<int>, s: seq<real>)

  predicate Groups(n: nat, gs: nat) { gs > 0 && n % gs == 0 }

  lemma GroupFits(n: nat, gs: nat, g: nat)
    requires Groups(n, gs) && g < n / gs
    ensures g * gs + gs <= n && (g + 1) * gs == g * gs + gs
  {
    var m := n / gs;
    assert n == m * gs;
    MulMonotone(g + 1, m, gs);
  }

  lemma MulMonotone(a: int, b: int, c: int)
    requires a <= b && c >= 0
    ensures a * c <= b * c
  {
  }

  lemma GroupOf(n: nat, gs: nat, i: nat)
    requires Groups(n, gs) && i < n
    ensures i / gs < n / gs && i / gs * gs <= i < i / gs * gs + gs
  {
    var m := n / gs;
    assert n == m * gs && i == i / gs * gs + i % gs;
    if i / gs >= m { MulMonotone(m, i / gs, gs); }
  }

  lemma GroupIndex(gs: nat, g: nat, k: nat)
    requires k < gs
    ensures (g * gs + k) / gs == g
  {
    var i := g * gs + k;
    assert i == i / gs * gs + i % gs;
    if i / gs < g { MulMonotone(i / gs + 1, g, gs); }
    if i / gs > g { MulMonotone(g + 1, i / gs, gs); }
  }

  function Group(x: seq<real>, gs: nat, g: nat): seq<real>
    requires Groups(|x|, gs) && g < |x| / gs
  {
    GroupFits(|x|, gs, g);
    x[g * gs..g * gs + gs]
  }

  function ScaleOf(x: seq<real>, gs: nat, g: nat): (s: real)
    requires Groups(|x|, gs) && g < |x| / gs
    ensures s >= 0.0
  {
    MaxAbs(Group(x, gs, g)) / 127.0
  }

  function QuantOf(x: real, scale: real): int { if scale != 0.0 then Round(x / scale) else 0 }

  /** The scale of the group of element `i`. */
  function ScaleAt(x: seq<real>, gs: nat, i: nat): real
    requires Groups(|x|, gs) && i < |x|
  {
    GroupOf(|x|, gs, i);
    ScaleOf(x, gs, i / gs)
  }

  function QuantAt(x: seq<real>, gs: nat, i: nat): int
    requires Groups(|x|, gs) && i < |x|
  {
    QuantOf(x[i], ScaleAt(x, gs, i))
  }

  /** Q8_0 quantisation of a vector. */
  function Quantized(x: seq<real>, gs: nat): (r: Quant)
    requires Groups(|x|, gs)
    ensures |r.q| == |x| && |r.s| == |x| / gs
  {
    Quant(seq(|x|, i requires 0 <= i < |x| => QuantAt(x, gs, i)),
          seq(|x| / gs, g requires 0 <= g < |x| / gs => ScaleOf(x, gs, g)))
  }

  /** The value an element of a quantised vector stands for. */
  function Deq(v: Quant, gs: nat, i: nat): real
    requires Groups(|v.q|, gs) && |v.s| == |v.q| / gs && i < |v.q|
  {
    GroupOf(|v.q|, gs, i);
    v.q[i] as real * v.s[i / gs]
  }

  function Dequantized(v: Quant, gs: nat): (r: seq<real>)
    requires Groups(|v.q|, gs) && |v.s| == |v.q| / gs
    ensures |r| == |v.q|
  {
    seq(|v.q|, i requires 0 <= i < |v.q| => Deq(v, gs, i))
  }

  /** The slices `q[qo..]` and `s[so..]` hold the quantised `v`. */
  ghost predicate HoldsQuant(q: seq<int>, qo: nat, s: seq<real>, so: nat, v: Quant) {
    && qo + |v.q| <= |q| && q[qo..qo + |v.q|] == v.q
    && so + |v.s| <= |s| && s[so..so + |v.s|] == v.s
  }

  method Quantize(q: array<int>, qo: nat, s: array<real>, so: nat, x: array<real>, gs: nat)
    requires Groups(x.Length, gs) && qo + x.Length <= q.Length && so + x.Length / gs <= s.Length && s != x
    modifies q, s
    ensures HoldsQuant(q[..], qo, s[..], so, Quantized(x[..], gs))
    ensures forall i | 0 <= i < q.Length && !(qo <= i < qo + x.Length) :: q[i] == old(q[i])
    ensures forall i | 0 <= i < s.Length && !(so <= i < so + x.Length / gs) :: s[i] == old(s[i])
  {
    hide QuantAt, ScaleOf, GroupsDone, HoldsQuant;
    var n, groups := x.Length, x.Length / gs;
    var g := 0;
    assert n == groups * gs;
    assert GroupsDone(q[..], qo, s[..], so, x[..], gs, 0) by { NoneDone(q[..], qo, s[..], so, x[..], gs); }
    while g < groups
      invariant 0 <= g <= groups && GroupsDone(q[..], qo, s[..], so, x[..], gs, g)
      invariant forall i | 0 <= i < q.Length && !(qo <= i < qo + n) :: q[i] == old(q[i])
      invariant forall i | 0 <= i < s.Length && !(so <= i < so + groups) :: s[i] == old(s[i])
    {
      ghost var q0, s0 := q[..], s[..];
      GroupFits(n, gs, g);
      QuantizeGroup(q, qo, s, so, x, gs, g);
      NextDone(q0, q[..], qo, s0, s[..], so, x[..], gs, g);
      g := g + 1;
    }
    AllDone(q[..], qo, s[..], so, x[..], gs);
  }

  /** The groups of `x` below `g` are quantised into their places. */
  ghost predicate GroupsDone(q: seq<int>, qo: nat, s: seq<real>, so: nat, x: seq<real>, gs: nat, g: nat) {
    && Groups(|x|, gs) && qo + |x| <= |q| && so + |x| / gs <= |s| && g <= |x| / gs && g * gs <= |x|
    && (forall i {:trigger q[i]} | qo <= i < qo + g * gs :: q[i] == QuantAt(x, gs, i - qo))
    && (forall k {:trigger s[k]} | so <= k < so + g :: s[k] == ScaleOf(x, gs, k - so))
  }

  lemma NoneDone(q: seq<int>, qo: nat, s: seq<real>, so: nat, x: seq<real>, gs: nat)
    requires Groups(|x|, gs) && qo + |x| <= |q| && so + |x| / gs <= |s|
    ensures GroupsDone(q, qo, s, so, x, gs, 0)
  {
  }

  lemma NextDone(q0: seq<int>, q: seq<int>, qo: nat, s0: seq<real>, s: seq<real>, so: nat, x: seq<real>, gs: nat, g: nat)
    requires GroupsDone(q0, qo, s0, so, x, gs, g) && g < |x| / gs && |q| == |q0| && |s| == |s0|
    requires g * gs + gs <= |x|
    requires forall i {:trigger q[i]} | qo + g * gs <= i < qo + g * gs + gs :: q[i] == QuantAt(x, gs, i - qo)
    requires forall i | 0 <= i < |q| && !(qo + g * gs <= i < qo + g * gs + gs) :: q[i] == q0[i]
    requires s[so + g] == ScaleOf(x, gs, g) && forall i | 0 <= i < |s| && i != so + g :: s[i] == s0[i]
    ensures GroupsDone(q, qo, s, so, x, gs, g + 1)
  {
    hide QuantAt, ScaleOf;
    GroupFits(|x|, gs, g);
  }

  lemma AllDone(q: seq<int>, qo: nat, s: seq<real>, so: nat, x: seq<real>, gs: nat)
    requires Groups(|x|, gs) && GroupsDone(q, qo, s, so, x, gs, |x| / gs)
    ensures HoldsQuant(q, qo, s, so, Quantized(x, gs))
  {
    hide QuantAt, ScaleOf;
    var n, groups := |x|, |x| / gs;
    assert n == groups * gs;
    assert q[qo..qo + n] == Quantized(x, gs).q;
    assert s[so..so + groups] == Quantized(x, gs).s;
  }

  lemma GroupAt(x: seq<real>, gs: nat, g: nat)
    requires Groups(|x|, gs) && g < |x| / gs
    ensures g * gs + gs <= |x| && |Group(x, gs, g)| == gs
    ensures forall k | 0 <= k < gs :: Group(x, gs, g)[k] == x[g * gs + k]
  {
    GroupFits(|x|, gs, g);
  }

  lemma MaxAbsNext(v: seq<real>, k: nat)
    requires k <= |v|
    ensures k == 0 ==> MaxAbs(v[..k]) == 0.0
    ensures k < |v| ==> MaxAbs(v[..k + 1]) == if Abs(v[k]) > MaxAbs(v[..k]) then Abs(v[k]) else MaxAbs(v[..k])
  {
    if k < |v| {
      assert v[..k + 1][..k] == v[..k];
    }
  }

  method GroupMax(x: array<real>, gs: nat, g: nat) returns (wmax: real)
    requires Groups(x.Length, gs) && g < x.Length / gs
    ensures wmax == MaxAbs(Group(x[..], gs, g))
  {
    hide MaxAbs, Group;
    GroupAt(x[..], gs, g);
    var base := g * gs;
    ghost var v := Group(x[..], gs, g);
    wmax := 0.0;
    MaxAbsNext(v, 0);
    var k := 0;
    while k < gs
      invariant 0 <= k <= gs
      invariant wmax == MaxAbs(v[..k])
    {
      MaxAbsNext(v, k);
      assert v[k] == x[base + k];
      var a := Abs(x[base + k]);
      if a > wmax { wmax := a; }
      k := k + 1;
    }
    assert v[..gs] == v;
  }

  method QuantizeGroup(q: array<int>, qo: nat, s: array<real>, so: nat, x: array<real>, gs: nat, g: nat)
    requires Groups(x.Length, gs) && g < x.Length / gs && g * gs + gs <= x.Length
    requires qo + x.Length <= q.Length && so + x.Length / gs <= s.Length && s != x
    modifies q, s
    ensures forall i {:trigger q[i]} | qo + g * gs <= i < qo + g * gs + gs :: q[i] == QuantAt(x[..], gs, i - qo)
    ensures forall i | 0 <= i < q.Length && !(qo + g * gs <= i < qo + g * gs + gs) :: q[i] == old(q[i])
    ensures s[so + g] == ScaleOf(x[..], gs, g)
    ensures forall i | 0 <= i < s.Length && i != so + g :: s[i] == old(s[i])
  {
    hide MaxAbs, Group, QuantOf;
    var base := g * gs;
    var wmax := GroupMax(x, gs, g);
    var scale := wmax / 127.0;
    s[so + g] := scale;
    var k := 0;
    while k < gs
      modifies q
      invariant 0 <= k <= gs
      invariant forall i {:trigger q[i]} | qo + base <= i < qo + base + k :: q[i] == QuantAt(x[..], gs, i - qo)
      invariant forall i | 0 <= i < q.Length && !(qo + base <= i < qo + base + gs) :: q[i] == old(q[i])
    {
      GroupIndex(gs, g, k);
      q[qo + base + k] := QuantOf(x[base + k], scale);
      k := k + 1;
    }
  }

  // ---- the quantised matrix product ----------------------------------------------------------

  /** `v` holds `rows` rows of `n` elements, quantised in groups of `gs`. */
  predicate IsMatrix(v: Quant, rows: nat, n: nat, gs: nat) {
    Groups(n, gs) && |v.q| == rows * n && |v.s| == rows * (n / gs)
  }

  lemma RowFits(v: Quant, rows: nat, n: nat, gs: nat, i: nat, g: nat)
    requires IsMatrix(v, rows, n, gs) && i < rows && g < n / gs
    ensures i * n + g * gs + gs <= |v.q| && i * (n / gs) + g < |v.s|
    ensures (i * n + g * gs) / gs == i * (n / gs) + g
  {
    var m := n / gs;
    GroupFits(n, gs, g);
    RowBound(rows, n, i);
    RowBound(rows, m, i);
    assert n == m * gs;
    assert i * n + g * gs == (i * m + g) * gs by { Regroup(i, m, g, gs); }
    GroupIndex(gs, i * m + g, 0);
  }

  lemma RowBound(rows: nat, n: nat, i: nat)
    requires i < rows
    ensures i * n + n <= rows * n
  {
    MulMonotone(i + 1, rows, n);
  }

  lemma Regroup(i: nat, m: nat, g: nat, gs: nat)
    ensures i * (m * gs) + g * gs == (i * m + g) * gs
  {
    assert i * (m * gs) == (i * m) * gs;
  }

  /** The integer dot product of two slices of length `n`. */
  function IntDot(a: seq<int>, ao: nat, b: seq<int>, bo: nat, n: nat): int
    requires ao + n <= |a| && bo + n <= |b|
  {
    if n == 0 then 0 else IntDot(a, ao, b, bo, n - 1) + a[ao + n - 1] * b[bo + n - 1]
  }

  /** Group `g` of row `i` of `w` times group `g` of `x`. */
  function RowTerm(x: Quant, w: Quant, rows: nat, n: nat, gs: nat, i: nat, g: nat): real
    requires IsMatrix(x, 1, n, gs) && IsMatrix(w, rows, n, gs) && i < rows && g < n / gs
  {
    GroupFits(n, gs, g);
    RowFits(w, rows, n, gs, i, g);
    IntDot(x.q, g * gs, w.q, i * n + g * gs, gs) as real * w.s[i * (n / gs) + g] * x.s[g]
  }

  /** Row `i` of `w` times `x`, over the first `groups` groups. */
  function RowSum(x: Quant, w: Quant, rows: nat, n: nat, gs: nat, i: nat, groups: nat): real
    requires IsMatrix(x, 1, n, gs) && IsMatrix(w, rows, n, gs) && i < rows && groups <= n / gs
  {
    if groups == 0 then 0.0
    else RowSum(x, w, rows, n, gs, i, groups - 1) + RowTerm(x, w, rows, n, gs, i, groups - 1)
  }

  /** The product of a quantised matrix and a quantised vector. */
  function MatVec(x: Quant, w: Quant, rows: nat, n: nat, gs: nat): (r: seq<real>)
    requires IsMatrix(x, 1, n, gs) && IsMatrix(w, rows, n, gs)
    ensures |r| == rows
  {
    seq(rows, i requires 0 <= i < rows => RowSum(x, w, rows, n, gs, i, n / gs))
  }

  method Matmul(out: array<real>, xq: array<int>, xs: array<real>, w: Quant, n: nat, d: nat, gs: nat)
    requires IsMatrix(Quant(xq[..], xs[..]), 1, n, gs) && IsMatrix(w, d, n, gs) && out.Length == d && out != xs
    modifies out
    ensures out[..] == MatVec(Quant(xq[..], xs[..]), w, d, n, gs)
  {
    hide RowSum;
    ghost var x := Quant(xq[..], xs[..]);
    ghost var groups := n / gs;
    var i := 0;
    while i < d
      invariant 0 <= i <= d
      invariant forall r | 0 <= r < i :: out[r] == RowSum(x, w, d, n, gs, r, groups)
    {
      var val := MatmulRow(xq, xs, w, n, d, gs, i);
      out[i] := val;
      i := i + 1;
    }
    assert out[..] == MatVec(x, w, d, n, gs);
  }

  /** Where the loop stands in group `g` of row `i`. */
  lemma LoopPosition(x: Quant, w: Quant, rows: nat, n: nat, gs: nat, i: nat, g: nat, row: nat, j: nat)
    requires IsMatrix(x, 1, n, gs) && IsMatrix(w, rows, n, gs) && i < rows && g < n / gs
    requires gs > 0 && row == i * n && j == g * gs
    ensures j + gs <= |x.q| && row + j + gs <= |w.q|
    ensures (row + j) / gs < |w.s| && j / gs == g < |x.s| && (g + 1) * gs == j + gs
    ensures RowTerm(x, w, rows, n, gs, i, g) ==
            IntDot(x.q, j, w.q, row + j, gs) as real * w.s[(row + j) / gs] * x.s[j / gs]
  {
    hide IntDot;
    GroupFits(n, gs, g);
    RowFits(w, rows, n, gs, i, g);
    GroupIndex(gs, g, 0);
  }

  method MatmulRow(xq: array<int>, xs: array<real>, w: Quant, n: nat, d: nat, gs: nat, i: nat) returns (val: real)
    requires IsMatrix(Quant(xq[..], xs[..]), 1, n, gs) && IsMatrix(w, d, n, gs) && i < d
    ensures val == RowSum(Quant(xq[..], xs[..]), w, d, n, gs, i, n / gs)
  {
    hide IntDot, IsMatrix, RowTerm;
    ghost var x := Quant(xq[..], xs[..]);
    ghost var groups := GroupCount(x, n, gs);
    val := 0.0;
    var row, j := i * n, 0;
    ghost var g := 0;
    while j < n
      invariant 0 <= g <= groups && j == g * gs
      invariant val == RowSum(x, w, d, n, gs, i, g)
      decreases n - j
    {
      MoreGroups(n, gs, g, groups);
      LoopPosition(x, w, d, n, gs, i, g, row, j);
      var ival := GroupDot(xq, w, row, j, gs);
      val := val + ival as real * w.s[(row + j) / gs] * xs[j / gs];
      g, j := g + 1, j + gs;
    }
    AllGroups(n, gs, g, groups);
  }

  ghost function GroupCount(v: Quant, n: nat, gs: nat): (m: nat)
    requires IsMatrix(v, 1, n, gs)
    ensures gs > 0 && n == m * gs && m == n / gs && |v.q| == n && |v.s| == m
  {
    n / gs
  }

  lemma MoreGroups(n: nat, gs: nat, g: nat, groups: nat)
    requires n == groups * gs && g * gs < n && g <= groups
    ensures g < groups
  {
  }

  lemma AllGroups(n: nat, gs: nat, g: nat, groups: nat)
    requires gs > 0 && n == groups * gs && g * gs >= n && g <= groups
    ensures g == groups
  {
    if g < groups {
      MulMonotone(g + 1, groups, gs);
      assert false;
    }
  }

  method GroupDot(xq: array<int>, w: Quant, row: nat, j: nat, gs: nat) returns (ival: int)
    requires j + gs <= xq.Length && row + j + gs <= |w.q|
    ensures ival == IntDot(xq[..], j, w.q, row + j, gs)
  {
    ival := 0;
    var k := 0;
    while k < gs
      invariant 0 <= k <= gs
      invariant ival == IntDot(xq[..], j, w.q, row + j, k)
    {
      ival := ival + xq[j + k] * w.q[row + j + k];
      k := k + 1;
    }
  }
}
