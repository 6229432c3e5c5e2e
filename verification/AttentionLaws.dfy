/** What attention and a layer do, without the way they are computed. */
module AttentionLaws {
  import opened QMath
  import opened Kernels
  import opened KernelLaws
  import opened Reference

  // ---- which key head a query head reads -----------------------------------------------------

  /**
   Query heads share key heads in order: the first reads the first, the last the last, a later one no earlier one,
   and every key head is read by exactly as many, which stand side by side.
   */
  lemma HeadsShareInOrder(a: Heads, h: nat, k: nat)
    requires ValidHeads(a) && h < a.n && k < a.kv
    ensures KvHead(a, 0) == 0 && KvHead(a, a.n - 1) == a.kv - 1
    ensures forall g: nat | g <= h :: KvHead(a, g) <= KvHead(a, h)
    ensures KvHead(a, h) == k <==> k * a.mul <= h < k * a.mul + a.mul
  {
    hide KvHead;
    Between(a, h, k);
    FirstAndLast(a);
    forall g: nat | g <= h ensures KvHead(a, g) <= KvHead(a, h) { LaterReadsLater(a, g, h); }
  }

  lemma FirstAndLast(a: Heads)
    requires ValidHeads(a)
    ensures KvHead(a, 0) == 0 && KvHead(a, a.n - 1) == a.kv - 1
  {
    hide KvHead;
    assert a.kv > 0;
    Between(a, 0, 0);
    LastShare(a.kv - 1, a.mul);
    Between(a, a.n - 1, a.kv - 1);
  }

  lemma LastShare(k: nat, mul: nat)
    ensures k * mul + mul == (k + 1) * mul
  {
  }

  lemma LaterReadsLater(a: Heads, g: nat, h: nat)
    requires ValidHeads(a) && g <= h < a.n
    ensures KvHead(a, g) <= KvHead(a, h)
  {
    hide KvHead;
    var x, y := KvHead(a, g), KvHead(a, h);
    Between(a, g, x);
    Between(a, h, y);
    if x > y {
      MulMonotone(y + 1, x, a.mul);
      LastShare(y, a.mul);
    }
  }

  lemma Between(a: Heads, h: nat, k: nat)
    requires ValidHeads(a) && h < a.n && k < a.kv
    ensures KvHead(a, h) == k <==> k * a.mul <= h < k * a.mul + a.mul
  {
    var q := KvHead(a, h);
    assert h == q * a.mul + h % a.mul;
    if q < k { MulMonotone(q + 1, k, a.mul); }
    if q > k { MulMonotone(k + 1, q, a.mul); }
  }

  // ---- attention is an average ---------------------------------------------------------------

  /** Attention to the positions is a distribution over them. */
  lemma AttentionIsDistribution(lm: Libm, a: Heads, q: seq<real>, keys: seq<Row>, h: nat)
    requires ValidHeads(a) && |q| == a.n * a.hs && AreRows(a, keys) && keys != [] && h < a.n && IsExp(lm)
    ensures var w := Attention(lm, a, q, keys, h); Sum(w) == 1.0 && forall t | 0 <= t < |w| :: w[t] > 0.0
  {
    hide Softmax, Score, IsExp, Sum;
    var v := seq(|keys|, t requires 0 <= t < |keys| => Score(lm, a, q, keys[t], h));
    SoftmaxSums(lm, v);
    SharesPositive(lm, v);
  }

  lemma SharesPositive(lm: Libm, v: seq<real>)
    requires v != [] && IsExp(lm)
    ensures forall t | 0 <= t < |v| :: Softmax(lm, v)[t] > 0.0
  {
    hide Softmax, Sum;
    SoftmaxIs(lm, v);
    forall t | 0 <= t < |v| ensures Softmax(lm, v)[t] > 0.0 {
      ExpPositive(lm, v[t]);
      PositiveQuotient(lm.exp(v[t]), Sum(ExpOf(lm, v)));
    }
  }

  /** Element `j` of the value head that query head `h` reads, at position `t`. */
  function ValueElem(a: Heads, vals: seq<Row>, h: nat, j: nat, t: nat): real
    requires ValidHeads(a) && AreRows(a, vals) && h < a.n && j < a.hs && t < |vals|
  {
    Elem(vals[t], a.kv, a.hs, KvHead(a, h), j)
  }

  function Prod(x: real, y: real): real { x * y }

  lemma MixNext(a: Heads, w: seq<real>, vals: seq<Row>, h: nat, j: nat, n: nat)
    requires ValidHeads(a) && AreRows(a, vals) && |w| == |vals| && h < a.n && j < a.hs && n < |vals|
    ensures Mixed(a, w, vals, h, j, n + 1) == Mixed(a, w, vals, h, j, n) + Prod(w[n], ValueElem(a, vals, h, j, n))
    ensures SumOf(w[..n + 1]) == SumOf(w[..n]) + w[n]
  {
    hide Elem, KvHead;
    assert w[..n + 1][..n] == w[..n];
  }

  lemma {:induction false} MixBetween(a: Heads, w: seq<real>, vals: seq<Row>, h: nat, j: nat, n: nat, lo: real, hi: real)
    requires ValidHeads(a) && AreRows(a, vals) && |w| == |vals| && h < a.n && j < a.hs && n <= |vals|
    requires forall t | 0 <= t < n :: w[t] > 0.0 && lo <= ValueElem(a, vals, h, j, t) <= hi
    ensures Prod(lo, SumOf(w[..n])) <= Mixed(a, w, vals, h, j, n) <= Prod(hi, SumOf(w[..n]))
  {
    hide ValueElem, Prod, SumOf, Mixed;
    if n > 0 {
      MixBetween(a, w, vals, h, j, n - 1, lo, hi);
      MixNext(a, w, vals, h, j, n - 1);
      Weighing(w[n - 1], ValueElem(a, vals, h, j, n - 1), lo, hi);
      Distributes(lo, SumOf(w[..n - 1]), w[n - 1]);
      Distributes(hi, SumOf(w[..n - 1]), w[n - 1]);
    } else {
      NothingMixed(a, w, vals, h, j, lo, hi);
    }
  }

  lemma NothingMixed(a: Heads, w: seq<real>, vals: seq<Row>, h: nat, j: nat, lo: real, hi: real)
    requires ValidHeads(a) && AreRows(a, vals) && |w| == |vals| && h < a.n && j < a.hs
    ensures Prod(lo, SumOf(w[..0])) == Mixed(a, w, vals, h, j, 0) == Prod(hi, SumOf(w[..0]))
  {
    assert w[..0] == [];
  }

  lemma Distributes(x: real, s: real, w: real)
    ensures Prod(x, s + w) == Prod(x, s) + Prod(x, w)
  {
  }

  lemma Weighing(w: real, v: real, lo: real, hi: real)
    requires w > 0.0 && lo <= v <= hi
    ensures Prod(lo, w) <= Prod(w, v) <= Prod(hi, w)
  {
    assert w * (v - lo) >= 0.0 && w * (hi - v) >= 0.0;
  }

  /** Every element of the attention output lies between the least and the greatest value attended to. */
  lemma AttentionAverages(lm: Libm, a: Heads, q: seq<real>, keys: seq<Row>, vals: seq<Row>, i: nat, lo: real, hi: real)
    requires ValidHeads(a) && |q| == a.n * a.hs && AreRows(a, keys) && AreRows(a, vals)
    requires |keys| == |vals| > 0 && i < a.n * a.hs && IsExp(lm)
    requires i / a.hs < a.n && i % a.hs < a.hs
    requires forall t | 0 <= t < |vals| :: lo <= ValueElem(a, vals, i / a.hs, i % a.hs, t) <= hi
    ensures lo <= Attended(lm, a, q, keys, vals)[i] <= hi
  {
    hide Attention, ValueElem, IsExp, Mixed;
    var w := Attention(lm, a, q, keys, i / a.hs);
    AttentionIsDistribution(lm, a, q, keys, i / a.hs);
    MixBetween(a, w, vals, i / a.hs, i % a.hs, |vals|, lo, hi);
    assert w[..|vals|] == w;
    SumIs(w);
  }

  /** With one position to attend to, the output is its value. */
  lemma OnlyOneIsHeard(lm: Libm, a: Heads, q: seq<real>, key: Row, val: Row, i: nat)
    requires ValidHeads(a) && |q| == a.n * a.hs && AreRows(a, [key]) && AreRows(a, [val]) && i < a.n * a.hs && IsExp(lm)
    requires i / a.hs < a.n && i % a.hs < a.hs
    ensures Attended(lm, a, q, [key], [val])[i] == ValueElem(a, [val], i / a.hs, i % a.hs, 0)
  {
    hide Attended, ValueElem, IsExp;
    var x := ValueElem(a, [val], i / a.hs, i % a.hs, 0);
    AttentionAverages(lm, a, q, [key], [val], i, x, x);
  }

  /** Of two positions the one with the greater score is attended to more. */
  lemma GreaterScoreGetsMore(lm: Libm, a: Heads, q: seq<real>, keys: seq<Row>, h: nat, s: nat, t: nat)
    requires ValidHeads(a) && |q| == a.n * a.hs && AreRows(a, keys) && h < a.n && IsExp(lm) && s < |keys| && t < |keys|
    requires forall x: real, y: real | x < y :: lm.exp(x) < lm.exp(y)
    requires Score(lm, a, q, keys[s], h) > Score(lm, a, q, keys[t], h)
    ensures Attention(lm, a, q, keys, h)[s] > Attention(lm, a, q, keys, h)[t]
  {
    hide Softmax, Score, IsExp, Sum;
    var v := seq(|keys|, u requires 0 <= u < |keys| => Score(lm, a, q, keys[u], h));
    SoftmaxIs(lm, v);
    LessQuotient(lm.exp(v[t]), lm.exp(v[s]), Sum(ExpOf(lm, v)));
  }

  lemma LessQuotient(a: real, b: real, d: real)
    requires a < b && d > 0.0
    ensures a / d < b / d
  {
  }

  // ---- layers --------------------------------------------------------------------------------

  ghost predicate IsZero(w: Quant) { forall i | 0 <= i < |w.q| :: w.q[i] == 0 }

  lemma {:induction false} ZeroDot(a: seq<int>, ao: nat, b: seq<int>, bo: nat, n: nat)
    requires ao + n <= |a| && bo + n <= |b| && forall i | 0 <= i < |b| :: b[i] == 0
    ensures IntDot(a, ao, b, bo, n) == 0
  {
    if n > 0 { ZeroDot(a, ao, b, bo, n - 1); }
  }

  lemma {:induction false} ZeroRow(x: Quant, w: Quant, rows: nat, n: nat, gs: nat, i: nat, groups: nat)
    requires IsMatrix(x, 1, n, gs) && IsMatrix(w, rows, n, gs) && i < rows && groups <= n / gs && IsZero(w)
    ensures RowSum(x, w, rows, n, gs, i, groups) == 0.0
  {
    hide IntDot;
    if groups > 0 {
      ZeroRow(x, w, rows, n, gs, i, groups - 1);
      GroupFits(n, gs, groups - 1);
      RowFits(w, rows, n, gs, i, groups - 1);
      ZeroDot(x.q, (groups - 1) * gs, w.q, i * n + (groups - 1) * gs, gs);
      NoTerm(w.s[i * (n / gs) + (groups - 1)], x.s[groups - 1]);
    }
  }

  lemma NoTerm(a: real, b: real)
    ensures 0 as real * a * b == 0.0
  {
  }

  lemma ZeroProduct(x: seq<real>, w: Quant, rows: nat, n: nat, gs: nat)
    requires |x| == n && IsMatrix(w, rows, n, gs) && IsZero(w)
    ensures forall i | 0 <= i < rows :: Product(x, w, rows, n, gs)[i] == 0.0
  {
    hide RowSum, Quantized;
    assert IsMatrix(Quantized(x, gs), 1, n, gs);
    forall i | 0 <= i < rows ensures Product(x, w, rows, n, gs)[i] == 0.0 { ZeroRow(Quantized(x, gs), w, rows, n, gs, i, n / gs); }
  }

  /** A layer that writes nothing back leaves the stream as it is. */
  lemma SilentLayerIsIdentity(m: Model, int8: bool, toks: seq<nat>, l: nat, t: nat)
    requires ValidModel(m) && ValidTokens(m, toks) && l < m.c.nLayers && t < |toks|
    requires IsZero(m.layers[l].wo) && IsZero(m.layers[l].w2)
    ensures Stream(m, int8, toks, l + 1, t) == Stream(m, int8, toks, l, t)
  {
    hide Product, IsZero, Attended, Gated, RmsNorm, IsMatrix, KeyRows, ValRows, QueryOf;
    var c, y, x := m.c, m.layers[l], Stream(m, int8, toks, l, t);
    assert ValidLayer(c, y);
    var keys, vals := KeyRows(m, int8, toks, l, t + 1), ValRows(m, int8, toks, l, t + 1);
    var heard := Attended(m.lm, HeadsOf(c), QueryOf(m, l, x, t), keys, vals);
    ZeroProduct(heard, y.wo, c.dim, c.dim, c.gs);
    NothingAdded(x, Product(heard, y.wo, c.dim, c.dim, c.gs));
    var n := RmsNorm(m.lm, x, y.rmsFfn);
    var mid := Gated(m.lm, Product(n, y.w1, c.hidden, c.dim, c.gs), Product(n, y.w3, c.hidden, c.dim, c.gs));
    ZeroProduct(mid, y.w2, c.dim, c.hidden, c.gs);
    NothingAdded(x, Product(mid, y.w2, c.dim, c.hidden, c.gs));
  }

  lemma NothingAdded(x: seq<real>, y: seq<real>)
    requires |x| == |y| && forall i | 0 <= i < |y| :: y[i] == 0.0
    ensures Added(x, y) == x
  {
  }
}
