/** The phases of one decoding step, each filling its buffers from the ones before it. */
module Steps {
  import opened QMath
  import opened Kernels
  import opened Reference

  /** Dequantise one row of the embedding table. */
  method EmbedInto(m: Model, token: nat, x: array<real>)
    requires ValidModel(m) && token < m.c.vocab && x.Length == m.c.dim
    modifies x
    ensures x[..] == Embedded(m, token)
  {
    hide EmbedAt;
    var i := 0;
    while i < m.c.dim
      invariant 0 <= i <= m.c.dim
      invariant forall k | 0 <= k < i :: x[k] == EmbedAt(m, token, k)
    {
      x[i] := EmbedAt(m, token, i);
      i := i + 1;
    }
    assert x[..] == Embedded(m, token);
  }

  /** The buffers hold the quantised vector `x`. */
  ghost predicate HoldsQuantised(q: seq<int>, s: seq<real>, x: seq<real>, gs: nat) {
    Groups(|x|, gs) && Quant(q, s) == Quantized(x, gs)
  }

  method QuantizeInto(q: array<int>, s: array<real>, x: array<real>, gs: nat)
    requires Groups(x.Length, gs) && q.Length == x.Length && s.Length == x.Length / gs && s != x
    modifies q, s
    ensures HoldsQuantised(q[..], s[..], x[..], gs)
  {
    hide Quantized;
    Quantize(q, 0, s, 0, x, gs);
    assert q[..] == q[..][0..0 + x.Length] && s[..] == s[..][0..0 + x.Length / gs];
  }

  /** A quantised product, of a vector the buffers hold. */
  method ProductInto(out: array<real>, q: array<int>, s: array<real>, ghost x: seq<real>, w: Quant, d: nat, n: nat, gs: nat)
    requires HoldsQuantised(q[..], s[..], x, gs) && |x| == n && IsMatrix(w, d, n, gs) && out.Length == d && out != s
    modifies out
    ensures out[..] == Product(x, w, d, n, gs)
  {
    hide Quantized, MatVec;
    assert IsMatrix(Quantized(x, gs), 1, n, gs);
    Matmul(out, q, s, w, n, d, gs);
  }

  /** Query, key and value of a position from its residual stream. */
  method ProjectInto(m: Model, l: nat, pos: nat, x: array<real>, xb: array<real>, xq: array<int>, xs: array<real>,
                     q: array<real>, k: array<real>, v: array<real>)
    requires ValidModel(m) && l < m.c.nLayers
    requires x.Length == xb.Length == xq.Length == q.Length == m.c.dim && xs.Length == m.c.dim / m.c.gs
    requires k.Length == v.Length == KvDim(m.c)
    requires x != xb && x != xs && xb != xs
    requires q != x && q != xb && q != xs && k != x && k != xb && k != xs && v != x && v != xb && v != xs
    requires q != k && q != v && k != v
    modifies xb, xq, xs, q, k, v
    ensures q[..] == QueryOf(m, l, x[..], pos) && k[..] == KeyOf(m, l, x[..], pos) && v[..] == ValueOf(m, l, x[..])
  {
    hide RmsNorm, Product, Rotated, HoldsQuantised, IsMatrix, ValidModel;
    var y := LayerOf(m, l);
    Shapes(m.c);
    NormaliseInto(m.lm, xb, x, y.rmsAtt);
    QuantizeInto(xq, xs, xb, m.c.gs);
    ghost var u := xb[..];
    ProductInto(q, xq, xs, u, y.wq, m.c.dim, m.c.dim, m.c.gs);
    ProductInto(k, xq, xs, u, y.wk, KvDim(m.c), m.c.dim, m.c.gs);
    ProductInto(v, xq, xs, u, y.wv, KvDim(m.c), m.c.dim, m.c.gs);
    RotateBoth(m.lm, q, k, HeadSize(m.c), pos);
  }

  /** A layer and the shapes of its weights. */
  function LayerOf(m: Model, l: nat): (y: Layer)
    requires ValidModel(m) && l < m.c.nLayers
    ensures y == m.layers[l] && ValidConfig(m.c) && ValidLayer(m.c, y)
  {
    m.layers[l]
  }

  /** Output projection of the attention, added to the residual stream. */
  method ProjectOut(m: Model, l: nat, x: array<real>, xb: array<real>, xb2: array<real>, xq: array<int>, xs: array<real>)
    requires ValidModel(m) && l < m.c.nLayers
    requires x.Length == xb.Length == xb2.Length == xq.Length == m.c.dim && xs.Length == m.c.dim / m.c.gs
    requires x != xb && x != xb2 && x != xs && xb != xb2 && xb != xs && xb2 != xs
    modifies x, xb2, xq, xs
    ensures x[..] == Added(old(x[..]), OutOf(m, l, xb[..]))
  {
    hide Product, HoldsQuantised, IsMatrix, ValidModel;
    var y := LayerOf(m, l);
    QuantizeInto(xq, xs, xb, m.c.gs);
    ProductInto(xb2, xq, xs, xb[..], y.wo, m.c.dim, m.c.dim, m.c.gs);
    AddInto(x, xb2);
  }

  ghost function OutOf(m: Model, l: nat, u: seq<real>): (r: seq<real>)
    requires ValidModel(m) && l < m.c.nLayers && |u| == m.c.dim
    ensures |r| == m.c.dim
  {
    Product(u, LayerOf(m, l).wo, m.c.dim, m.c.dim, m.c.gs)
  }

  /** The two gated products of the feed-forward part. */
  method GateUp(m: Model, l: nat, x: array<real>, xb: array<real>, xq: array<int>, xs: array<real>,
                hb: array<real>, hb2: array<real>)
    requires ValidModel(m) && l < m.c.nLayers
    requires x.Length == xb.Length == xq.Length == m.c.dim && xs.Length == m.c.dim / m.c.gs
    requires hb.Length == hb2.Length == m.c.hidden
    requires x != xb && x != xs && xb != xs && hb != hb2
    requires hb != x && hb != xb && hb != xs && hb2 != x && hb2 != xb && hb2 != xs
    modifies xb, xq, xs, hb, hb2
    ensures hb[..] == GatedUp(m, l, x[..])
  {
    hide RmsNorm, Product, Gated, HoldsQuantised, IsMatrix, ValidModel;
    var y := LayerOf(m, l);
    NormaliseInto(m.lm, xb, x, y.rmsFfn);
    QuantizeInto(xq, xs, xb, m.c.gs);
    ProductInto(hb, xq, xs, xb[..], y.w1, m.c.hidden, m.c.dim, m.c.gs);
    ProductInto(hb2, xq, xs, xb[..], y.w3, m.c.hidden, m.c.dim, m.c.gs);
    GateInto(m.lm, hb, hb2);
  }

  ghost function GatedUp(m: Model, l: nat, x: seq<real>): (r: seq<real>)
    requires ValidModel(m) && l < m.c.nLayers && |x| == m.c.dim
    ensures |r| == m.c.hidden
  {
    var y := LayerOf(m, l);
    var n := RmsNorm(m.lm, x, y.rmsFfn);
    Gated(m.lm, Product(n, y.w1, m.c.hidden, m.c.dim, m.c.gs), Product(n, y.w3, m.c.hidden, m.c.dim, m.c.gs))
  }

  lemma FeedForwardIs(m: Model, l: nat, x: seq<real>)
    requires ValidModel(m) && l < m.c.nLayers && |x| == m.c.dim
    ensures ValidLayer(m.c, LayerOf(m, l))
    ensures FeedForward(m, l, x) ==
            Added(x, Product(GatedUp(m, l, x), LayerOf(m, l).w2, m.c.dim, m.c.hidden, m.c.gs))
  {
    hide RmsNorm, Product, Gated, IsMatrix, Added;
  }

  /** The feed-forward half of a layer. */
  method FeedInto(m: Model, l: nat, x: array<real>, xb: array<real>, xq: array<int>, xs: array<real>,
                  hb: array<real>, hb2: array<real>, hq: array<int>, hs: array<real>)
    requires ValidModel(m) && l < m.c.nLayers
    requires x.Length == xb.Length == xq.Length == m.c.dim && xs.Length == m.c.dim / m.c.gs
    requires hb.Length == hb2.Length == hq.Length == m.c.hidden && hs.Length == m.c.hidden / m.c.gs
    requires x != xb && x != xs && xb != xs && hb != hb2 && hs != x && hs != xb && hs != hb
    requires hb != x && hb != xb && hb != xs && hb2 != x && hb2 != xb && hb2 != xs
    modifies x, xb, xq, xs, hb, hb2, hq, hs
    ensures x[..] == FeedForward(m, l, old(x[..]))
  {
    hide GatedUp, FeedForward, Product, HoldsQuantised, IsMatrix, ValidModel;
    var y := LayerOf(m, l);
    FeedForwardIs(m, l, x[..]);
    GateUp(m, l, x, xb, xq, xs, hb, hb2);
    QuantizeInto(hq, hs, hb, m.c.gs);
    ProductInto(xb, hq, hs, hb[..], y.w2, m.c.dim, m.c.hidden, m.c.gs);
    AddInto(x, xb);
  }

  /** Final norm and classifier. */
  method ClassifyInto(m: Model, x: array<real>, xb: array<real>, xq: array<int>, xs: array<real>, logits: array<real>)
    requires ValidModel(m)
    requires x.Length == xb.Length == xq.Length == m.c.dim && xs.Length == m.c.dim / m.c.gs
    requires logits.Length == m.c.vocab && x != xb && x != xs && xb != xs && logits != xs
    modifies x, xb, xq, xs, logits
    ensures logits[..] == Classify(m, old(x[..]))
  {
    hide RmsNorm, Product, HoldsQuantised;
    CopyInto(xb, 0, x);
    assert Slice(xb[..], 0, x.Length) == xb[..];
    NormaliseInto(m.lm, x, xb, m.rmsFinal);
    QuantizeInto(xq, xs, x, m.c.gs);
    ProductInto(logits, xq, xs, x[..], m.wcls, m.c.vocab, m.c.dim, m.c.gs);
  }
}
