/** The quantised product against the exact one. */
module MatLaws {
  import opened QMath
  import opened QuantLaws

  ghost function Times(a: real, b: real): real { a * b }

  /** One term of a product, of what its factors stand for. */
  ghost function DeqTerm(x: Quant, w: Quant, gs: nat, j: nat, k: nat): real
    requires Groups(|x.q|, gs) && |x.s| == |x.q| / gs && j < |x.q|
    requires Groups(|w.q|, gs) && |w.s| == |w.q| / gs && k < |w.q|
  {
    Times(Deq(w, gs, k), Deq(x, gs, j))
  }

  /** The dot product of what row `i` of `w` and `x` stand for, over the first `len` elements. */
  ghost function DotTo(x: Quant, w: Quant, rows: nat, n: nat, gs: nat, i: nat, len: nat): real
    requires IsMatrix(x, 1, n, gs) && IsMatrix(w, rows, n, gs) && i < rows && len <= n
  {
    if len == 0 then 0.0
    else
      ElementFits(w, rows, n, gs, i, len - 1);
      DotTo(x, w, rows, n, gs, i, len - 1) + DeqTerm(x, w, gs, len - 1, i * n + len - 1)
  }

  lemma ElementFits(w: Quant, rows: nat, n: nat, gs: nat, i: nat, j: nat)
    requires IsMatrix(w, rows, n, gs) && i < rows && j < n
    ensures i * n + j < |w.q| && Groups(|w.q|, gs) && |w.s| == |w.q| / gs
  {
    var m := n / gs;
    RowBound(rows, n, i);
    assert n == m * gs;
    Regroup(rows, m, 0, gs);
    GroupIndex(gs, rows * m, 0);
    assert |w.q| == (rows * m) * gs;
    WholeGroups(rows * m, gs);
  }

  lemma WholeGroups(m: nat, gs: nat)
    requires gs > 0
    ensures m * gs % gs == 0
  {
    GroupIndex(gs, m, 0);
    assert m * gs == m * gs / gs * gs + m * gs % gs;
  }

  /** Inside one group both scales are constant. */
  lemma InGroup(x: Quant, w: Quant, rows: nat, n: nat, gs: nat, i: nat, g: nat, k: nat)
    requires IsMatrix(x, 1, n, gs) && IsMatrix(w, rows, n, gs) && i < rows && g < n / gs && k < gs
    ensures g * gs + k < n && i * n + g * gs + gs <= |w.q| && g * gs + gs <= |x.q|
    ensures i * (n / gs) + g < |w.s| && Groups(|w.q|, gs) && |w.s| == |w.q| / gs
    ensures Deq(x, gs, g * gs + k) == x.q[g * gs + k] as real * x.s[g]
    ensures Deq(w, gs, i * n + (g * gs + k)) == w.q[i * n + g * gs + k] as real * w.s[i * (n / gs) + g]
  {
    var m := n / gs;
    GroupFits(n, gs, g);
    RowFits(w, rows, n, gs, i, g);
    ElementFits(w, rows, n, gs, i, g * gs + k);
    GroupIndex(gs, g, k);
    assert n == m * gs;
    Regroup(i, m, g, gs);
    GroupIndex(gs, i * m + g, k);
  }

  /** An integer accumulator scaled by the scales of its group. */
  ghost function Scaled(a: int, sw: real, sx: real): real { a as real * sw * sx }

  lemma Distribute(a: int, p: int, q: int, sw: real, sx: real)
    ensures Scaled(a + p * q, sw, sx) == Scaled(a, sw, sx) + (q as real * sw) * (p as real * sx)
    ensures Scaled(0, sw, sx) == 0.0
  {
    var r, t := p as real, q as real;
    assert (a + p * q) as real == a as real + r * t;
    assert (a as real + r * t) * sw == a as real * sw + (r * t) * sw;
    assert (r * t) * sw * sx == (t * sw) * (r * sx);
  }

  /** Where group `g` of row `i` begins: in the vector, in the matrix, and among the matrix's scales. */
  ghost predicate Place(x: Quant, w: Quant, rows: nat, n: nat, gs: nat, i: nat, g: nat, xo: nat, wo: nat, so: nat) {
    && IsMatrix(x, 1, n, gs) && IsMatrix(w, rows, n, gs) && i < rows && g < n / gs
    && xo == g * gs && wo == i * n + xo && so == i * (n / gs) + g
    && xo + gs <= n == |x.q| && wo + gs <= |w.q| && so < |w.s| && g < |x.s|
  }

  /** One more element of a group. */
  lemma GroupStep(x: Quant, w: Quant, rows: nat, n: nat, gs: nat, i: nat, g: nat, xo: nat, wo: nat, so: nat, k: nat)
    requires Place(x, w, rows, n, gs, i, g, xo, wo, so) && k < gs
    ensures DotTo(x, w, rows, n, gs, i, xo + k + 1) - DotTo(x, w, rows, n, gs, i, xo + k) ==
            Scaled(IntDot(x.q, xo, w.q, wo, k + 1), w.s[so], x.s[g]) - Scaled(IntDot(x.q, xo, w.q, wo, k), w.s[so], x.s[g])
  {
    hide Deq, Scaled;
    InGroup(x, w, rows, n, gs, i, g, k);
    Distribute(IntDot(x.q, xo, w.q, wo, k), x.q[xo + k], w.q[wo + k], w.s[so], x.s[g]);
    assert i * n + (xo + k + 1) - 1 == i * n + (xo + k);
  }

  lemma {:induction false} GroupDotTo(x: Quant, w: Quant, rows: nat, n: nat, gs: nat, i: nat, g: nat, xo: nat, wo: nat, so: nat, k: nat)
    requires Place(x, w, rows, n, gs, i, g, xo, wo, so) && k <= gs
    ensures DotTo(x, w, rows, n, gs, i, xo + k) ==
            DotTo(x, w, rows, n, gs, i, xo) + Scaled(IntDot(x.q, xo, w.q, wo, k), w.s[so], x.s[g])
    decreases k
  {
    hide IsMatrix, DotTo, Scaled;
    if k == 0 {
      Distribute(0, 0, 0, w.s[so], x.s[g]);
    } else {
      GroupDotTo(x, w, rows, n, gs, i, g, xo, wo, so, k - 1);
      GroupStep(x, w, rows, n, gs, i, g, xo, wo, so, k - 1);
    }
  }

  lemma GroupShape(x: Quant, w: Quant, rows: nat, n: nat, gs: nat, i: nat, g: nat)
    requires IsMatrix(x, 1, n, gs) && IsMatrix(w, rows, n, gs) && i < rows && g < n / gs
    ensures g * gs + gs <= n && Place(x, w, rows, n, gs, i, g, g * gs, i * n + g * gs, i * (n / gs) + g)
  {
    GroupFits(n, gs, g);
    RowFits(w, rows, n, gs, i, g);
  }

  lemma NoGroups(x: Quant, w: Quant, rows: nat, n: nat, gs: nat, i: nat)
    requires IsMatrix(x, 1, n, gs) && IsMatrix(w, rows, n, gs) && i < rows
    ensures DotTo(x, w, rows, n, gs, i, 0) == 0.0 && 0 * gs == 0 && gs > 0
  {
  }

  lemma GroupEnd(x: Quant, n: nat, gs: nat, g: nat)
    requires IsMatrix(x, 1, n, gs) && gs > 0 && g < n / gs
    ensures g * gs + gs == (g + 1) * gs <= n
  {
    GroupFits(n, gs, g);
  }

  lemma {:induction false} RowDotTo(x: Quant, w: Quant, rows: nat, n: nat, gs: nat, i: nat, g: nat)
    requires IsMatrix(x, 1, n, gs) && IsMatrix(w, rows, n, gs) && i < rows && g <= n / gs
    ensures g * gs <= n && RowSum(x, w, rows, n, gs, i, g) == DotTo(x, w, rows, n, gs, i, g * gs)
    decreases g
  {
    hide IsMatrix, DotTo, IntDot, Deq;
    NoGroups(x, w, rows, n, gs, i);
    if g > 0 {
      RowDotTo(x, w, rows, n, gs, i, g - 1);
      GroupShape(x, w, rows, n, gs, i, g - 1);
      var xo := (g - 1) * gs;
      GroupDotTo(x, w, rows, n, gs, i, g - 1, xo, i * n + xo, i * (n / gs) + (g - 1), gs);
      GroupEnd(x, n, gs, g - 1);
    }
  }

  /** An output of the quantised product is exactly the dot product of what its operands stand for. */
  lemma MatmulIsDequantisedDot(x: Quant, w: Quant, rows: nat, n: nat, gs: nat, i: nat)
    requires IsMatrix(x, 1, n, gs) && IsMatrix(w, rows, n, gs) && i < rows
    ensures MatVec(x, w, rows, n, gs)[i] == DotTo(x, w, rows, n, gs, i, n)
  {
    hide RowSum, DotTo;
    RowDotTo(x, w, rows, n, gs, i, n / gs);
    assert n == n / gs * gs;
  }

  // ---- the error of one output ---------------------------------------------------------------

  /** The exact dot product, and the most that quantising both sides can change it by. */
  ghost function ExactTo(x: seq<real>, w: seq<real>, wo: nat, len: nat): real
    requires len <= |x| && wo + len <= |w|
  {
    if len == 0 then 0.0 else ExactTo(x, w, wo, len - 1) + Times(w[wo + len - 1], x[len - 1])
  }

  ghost function SlackAt(x: real, sx: real, w: real, sw: real): real {
    Abs(w) * sx / 2.0 + Abs(x) * sw / 2.0 + sw * sx / 4.0
  }

  ghost function SlackOf(x: seq<real>, w: seq<real>, gs: nat, j: nat, k: nat): real
    requires Groups(|x|, gs) && Groups(|w|, gs) && j < |x| && k < |w|
  {
    SlackAt(x[j], ScaleAt(x, gs, j), w[k], ScaleAt(w, gs, k))
  }

  ghost function SlackTo(x: seq<real>, w: seq<real>, gs: nat, wo: nat, len: nat): real
    requires Groups(|x|, gs) && Groups(|w|, gs) && len <= |x| && wo + len <= |w|
  {
    if len == 0 then 0.0 else SlackTo(x, w, gs, wo, len - 1) + SlackOf(x, w, gs, len - 1, wo + len - 1)
  }

  lemma ProductBound(a: real, b: real, p: real, q: real)
    requires Abs(a) <= p && Abs(b) <= q
    ensures Abs(a * b) <= p * q
  {
    var x, y := Abs(a), Abs(b);
    assert Abs(a * b) == x * y;
    assert (p - x) * y >= 0.0;
    assert p * (q - y) >= 0.0;
  }

  lemma Expand(x: real, ex: real, w: real, ew: real)
    ensures (w + ew) * (x + ex) - w * x == w * ex + x * ew + ew * ex
  {
    assert (w + ew) * (x + ex) == w * (x + ex) + ew * (x + ex);
  }

  lemma Triangle(a: real, b: real, c: real, p: real, q: real, r: real)
    requires Abs(a) <= p && Abs(b) <= q && Abs(c) <= r
    ensures Abs(a + b + c) <= p + q + r
  {
  }

  lemma Halves(a: real, s: real, t: real)
    ensures a * (s / 2.0) == a * s / 2.0
    ensures (t / 2.0) * (s / 2.0) == t * s / 4.0
  {
  }

  /** The error of a product of two rounded factors. */
  lemma TermError(x: real, sx: real, dx: real, w: real, sw: real, dw: real)
    requires sx >= 0.0 && sw >= 0.0 && Abs(dx - x) <= sx / 2.0 && Abs(dw - w) <= sw / 2.0
    ensures Abs(Times(dw, dx) - Times(w, x)) <= SlackAt(x, sx, w, sw)
  {
    hide Abs;
    var ex, ew := dx - x, dw - w;
    var aw, ax := Abs(w), Abs(x);
    ProductBound(w, ex, aw, sx / 2.0);
    ProductBound(x, ew, ax, sw / 2.0);
    ProductBound(ew, ex, sw / 2.0, sx / 2.0);
    Triangle(w * ex, x * ew, ew * ex, aw * (sx / 2.0), ax * (sw / 2.0), (sw / 2.0) * (sx / 2.0));
    Halves(aw, sx, sw);
    Halves(ax, sw, sx);
    assert dw * dx - w * x == w * ex + x * ew + ew * ex by {
      Expand(x, ex, w, ew);
      assert w + ew == dw && x + ex == dx;
    }
  }

  /** The rows of a matrix of reals can be quantised in place. */
  lemma MatrixQuantises(w: seq<real>, rows: nat, n: nat, gs: nat)
    requires Groups(n, gs) && |w| == rows * n
    ensures Groups(|w|, gs) && IsMatrix(Quantized(w, gs), rows, n, gs)
  {
    var m := n / gs;
    assert n == m * gs;
    Regroup(rows, m, 0, gs);
    WholeGroups(rows * m, gs);
    GroupIndex(gs, rows * m, 0);
    assert |w| / gs == rows * m;
  }

  /** The error of term `j` of row `i`. */
  lemma ElementError(x: seq<real>, w: seq<real>, gs: nat, j: nat, k: nat)
    requires Groups(|x|, gs) && Groups(|w|, gs) && j < |x| && k < |w|
    ensures Abs(DeqTerm(Quantized(x, gs), Quantized(w, gs), gs, j, k) - Times(w[k], x[j])) <= SlackOf(x, w, gs, j, k)
  {
    hide Deq, ScaleOf, SlackAt, Quantized, Groups, ScaleAt, Times, Abs;
    QuantisationError(x, gs, j);
    QuantisationError(w, gs, k);
    InScale(x, gs, j);
    InScale(w, gs, k);
    TermError(x[j], ScaleAt(x, gs, j), Deq(Quantized(x, gs), gs, j), w[k], ScaleAt(w, gs, k), Deq(Quantized(w, gs), gs, k));
  }

  lemma AddErrors(a: real, b: real, c: real, d: real, p: real, q: real)
    requires Abs(a - b) <= p && Abs(c - d) <= q
    ensures Abs((a + c) - (b + d)) <= p + q
  {
  }

  lemma {:induction false} DotError(x: seq<real>, w: seq<real>, rows: nat, n: nat, gs: nat, i: nat, len: nat)
    requires |x| == n && len <= n && i < rows && i * n + n <= |w| && Groups(n, gs) && Groups(|w|, gs)
    requires IsMatrix(Quantized(x, gs), 1, n, gs) && IsMatrix(Quantized(w, gs), rows, n, gs)
    ensures Abs(DotTo(Quantized(x, gs), Quantized(w, gs), rows, n, gs, i, len) - ExactTo(x, w, i * n, len))
            <= SlackTo(x, w, gs, i * n, len)
    decreases len
  {
    hide DeqTerm, Times, SlackOf, Quantized, IsMatrix, Groups, Abs;
    var wo, u, v := i * n, Quantized(x, gs), Quantized(w, gs);
    if len > 0 {
      var j := len - 1;
      DotError(x, w, rows, n, gs, i, j);
      ElementError(x, w, gs, j, wo + j);
      AddErrors(DotTo(u, v, rows, n, gs, i, j), ExactTo(x, w, wo, j),
                DeqTerm(u, v, gs, j, wo + j), Times(w[wo + j], x[j]), SlackTo(x, w, gs, wo, j), SlackOf(x, w, gs, j, wo + j));
      assert wo + len - 1 == wo + j;
    } else {
      Zero(0.0);
    }
  }

  lemma Zero(a: real)
    ensures Abs(a - a) == 0.0
  {
  }

  /**
   Each output of the product of a quantised matrix and a quantised vector is within the sum over its
   terms of |w| sx / 2 + |x| sw / 2 + sw sx / 4 of the exact product.
   */
  lemma MatmulError(x: seq<real>, w: seq<real>, rows: nat, n: nat, gs: nat, i: nat)
    requires Groups(n, gs) && |x| == n && |w| == rows * n && i < rows
    ensures Groups(|w|, gs) && i * n + n <= |w|
    ensures IsMatrix(Quantized(x, gs), 1, n, gs) && IsMatrix(Quantized(w, gs), rows, n, gs)
    ensures Abs(MatVec(Quantized(x, gs), Quantized(w, gs), rows, n, gs)[i] - ExactTo(x, w, i * n, n))
            <= SlackTo(x, w, gs, i * n, n)
  {
    hide MatVec, DotTo, ExactTo, SlackTo, Quantized;
    MatrixQuantises(w, rows, n, gs);
    RowBound(rows, n, i);
    MatrixQuantises(x, 1, n, gs);
    MatmulIsDequantisedDot(Quantized(x, gs), Quantized(w, gs), rows, n, gs, i);
    DotError(x, w, rows, n, gs, i, n);
  }

  /** An integer accumulator over a group stays within the group size times 127 squared. */
  lemma {:induction false} AccumulatorBound(a: seq<int>, ao: nat, b: seq<int>, bo: nat, n: nat)
    requires ao + n <= |a| && bo + n <= |b|
    requires forall i | 0 <= i < |a| :: -127 <= a[i] <= 127
    requires forall i | 0 <= i < |b| :: -127 <= b[i] <= 127
    ensures -(n * 16129) <= IntDot(a, ao, b, bo, n) <= n * 16129
  {
    if n > 0 {
      AccumulatorBound(a, ao, b, bo, n - 1);
      IntProductBound(a[ao + n - 1], b[bo + n - 1]);
    }
  }

  lemma IntProductBound(p: int, q: int)
    requires -127 <= p <= 127 && -127 <= q <= 127
    ensures -16129 <= p * q <= 16129
  {
    var m := if q < 0 then -q else q;
    MulMonotone(p, 127, m);
    MulMonotone(-127, p, m);
    assert p * q == if q < 0 then -(p * m) else p * m;
  }
}
