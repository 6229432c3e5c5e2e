/**
 The transformer as a textbook writes it: matrices and vectors of reals, softmax as normalised exponentials, one
 formula a part. No kernel of the engine occurs in it; 8-bit rounding is the only thing it shares with the engine.
 `Reference`, and with it the engine, computes exactly this.
 */
module Textbook {
  import opened QMath
  import opened MatLaws
  import opened Kernels
  import opened KernelLaws
  import opened Reference

  type Vec = seq<real>

  // ---- vectors -------------------------------------------------------------------------------

  function Dot(a: Vec, b: Vec): real
    requires |a| == |b|
  {
    if a == [] then 0.0 else a[0] * b[0] + Dot(a[1..], b[1..])
  }

  /** A vector as it is after rounding to 8 bits in groups. */
  function Rounded(x: Vec, gs: nat): (r: Vec)
    requires Groups(|x|, gs)
    ensures |r| == |x|
  {
    Dequantized(Quantized(x, gs), gs)
  }

  /** Row `i` of a stored matrix. */
  function RowOf(w: Quant, rows: nat, n: nat, gs: nat, i: nat): (r: Vec)
    requires IsMatrix(w, rows, n, gs) && i < rows
    ensures |r| == n
  {
    seq(n, j requires 0 <= j < n => (ElementFits(w, rows, n, gs, i, j); Deq(w, gs, i * n + j)))
  }

  /** A stored matrix times a vector that is rounded first. */
  function Times(w: Quant, rows: nat, n: nat, gs: nat, x: Vec): (r: Vec)
    requires IsMatrix(w, rows, n, gs) && |x| == n
    ensures |r| == rows
  {
    seq(rows, i requires 0 <= i < rows => Dot(RowOf(w, rows, n, gs, i), Rounded(x, gs)))
  }

  function Scaled3(x: real, w: real, f: real): real { x * w * f }

  /** Divided by the root of the mean square, and weighed. */
  function Normed(lm: Libm, x: Vec, w: Vec): (r: Vec)
    requires x != [] && |w| == |x|
    ensures |r| == |x|
  {
    seq(|x|, i requires 0 <= i < |x| => Scaled3(x[i], w[i], lm.rsqrt(MeanSquare(x) + 0.00001)))
  }

  /** The angle of the pair at `even`, from its place in its head and the position. */
  function Theta(lm: Libm, even: nat, hs: nat, pos: nat): real
    requires hs > 0
  {
    lm.freq(even % hs, hs) * pos as real
  }

  /** Every pair turned by its angle. */
  function Turned(lm: Libm, v: Vec, hs: nat, pos: nat): (r: Vec)
    requires hs > 0 && |v| % 2 == 0
    ensures |r| == |v|
  {
    seq(|v|, i requires 0 <= i < |v| =>
      var even := i / 2 * 2;
      var angle := Theta(lm, even, hs, pos);
      if i == even then TurnX(lm.cos(angle), lm.sin(angle), v[even], v[even + 1])
      else TurnY(lm.cos(angle), lm.sin(angle), v[even], v[even + 1]))
  }

  /** Exponentials, normalised. */
  function Shares(lm: Libm, v: Vec): (r: Vec)
    requires v != []
    ensures |r| == |v|
  {
    var total := Sum(ExpOf(lm, v));
    if total == 0.0 then v else seq(|v|, i requires 0 <= i < |v| => lm.exp(v[i]) / total)
  }

  // ---- attention -----------------------------------------------------------------------------

  /** Head `h` of a vector. */
  function HeadPart(v: Vec, hs: nat, h: nat): (r: Vec)
    requires h * hs + hs <= |v|
    ensures |r| == hs
  {
    v[h * hs..h * hs + hs]
  }

  /** The key head of query head `h`: heads are shared evenly, in order. */
  function Shared(a: Heads, h: nat): nat
    requires a.n > 0
  {
    h * a.kv / a.n
  }

  lemma SharedIs(a: Heads, h: nat)
    requires ValidHeads(a) && h < a.n
    ensures a.n > 0 && Shared(a, h) == KvHead(a, h) < a.kv
  {
    assert h * a.kv / (a.kv * a.mul) == h / a.mul by { CancelDiv(h, a.kv, a.mul); }
  }

  lemma Spread(q: nat, mul: nat, r: nat, kv: nat)
    ensures (q * mul + r) * kv == q * (kv * mul) + r * kv
  {
    assert (q * mul) * kv == q * (mul * kv);
  }

  lemma CancelDiv(h: nat, kv: nat, mul: nat)
    requires mul > 0 && kv * mul > 0
    ensures h * kv / (kv * mul) == h / mul
  {
    var q, r := h / mul, h % mul;
    assert h == q * mul + r;
    Spread(q, mul, r, kv);
    assert r * kv < kv * mul by { MulMonotone(r + 1, mul, kv); }
    GroupIndex(kv * mul, q, r * kv);
  }

  /** Vectors of the width of all key heads. */
  ghost predicate Wide(a: Heads, vs: seq<Vec>) { forall t | 0 <= t < |vs| :: |vs[t]| == a.kv * a.hs }

  /** How much head `h` attends to each position. */
  function Attends(lm: Libm, a: Heads, q: Vec, keys: seq<Vec>, h: nat): (r: Vec)
    requires ValidHeads(a) && |q| == a.n * a.hs && Wide(a, keys) && keys != [] && h < a.n
    ensures |r| == |keys|
  {
    SharedIs(a, h);
    HeadFits(a.n, a.hs, h, 0);
    HeadFits(a.kv, a.hs, Shared(a, h), 0);
    Shares(lm, seq(|keys|, t requires 0 <= t < |keys| =>
      Dot(HeadPart(q, a.hs, h), HeadPart(keys[t], a.hs, Shared(a, h))) * lm.rsqrt(a.hs as real)))
  }

  /** Element `j` of key head `kh` at every position. */
  function Column(vals: seq<Vec>, hs: nat, kh: nat, j: nat): (r: Vec)
    requires forall t | 0 <= t < |vals| :: kh * hs + j < |vals[t]|
    ensures |r| == |vals|
  {
    seq(|vals|, t requires 0 <= t < |vals| => vals[t][kh * hs + j])
  }

  /** All heads, one behind the other. */
  function Heard(lm: Libm, a: Heads, q: Vec, keys: seq<Vec>, vals: seq<Vec>): (r: Vec)
    requires ValidHeads(a) && |q| == a.n * a.hs && Wide(a, keys) && Wide(a, vals) && |keys| == |vals| > 0
    ensures |r| == a.n * a.hs
  {
    seq(a.n * a.hs, i requires 0 <= i < a.n * a.hs =>
      (HeadOf(a, i);
       SharedIs(a, i / a.hs);
       HeadFits(a.kv, a.hs, Shared(a, i / a.hs), i % a.hs);
       Dot(Attends(lm, a, q, keys, i / a.hs), Column(vals, a.hs, Shared(a, i / a.hs), i % a.hs))))
  }

  // ---- the model -----------------------------------------------------------------------------

  function Plus(x: Vec, y: Vec): (r: Vec)
    requires |x| == |y|
    ensures |r| == |x|
  {
    seq(|x|, i requires 0 <= i < |x| => x[i] + y[i])
  }

  /** What is kept of a key or a value: itself, or itself rounded head by head. */
  function Kept(int8: bool, v: Vec, heads: nat, hs: nat): (r: Vec)
    requires hs > 0 && |v| == heads * hs
    ensures |r| == |v|
  {
    StoredIsRow(int8, v, heads, hs);
    if int8 then Rounded(v, hs) else v
  }

  function KeyAt(m: Model, int8: bool, l: nat, x: Vec, pos: nat): (r: Vec)
    requires ValidModel(m) && l < m.c.nLayers && |x| == m.c.dim
    ensures |r| == m.c.nKvHeads * HeadSize(m.c)
  {
    var c, y := m.c, m.layers[l];
    assert ValidLayer(c, y);
    Shapes(c);
    Kept(int8, Turned(m.lm, Times(y.wk, KvDim(c), c.dim, c.gs, Normed(m.lm, x, y.rmsAtt)), HeadSize(c), pos),
         c.nKvHeads, HeadSize(c))
  }

  function ValueAt(m: Model, int8: bool, l: nat, x: Vec): (r: Vec)
    requires ValidModel(m) && l < m.c.nLayers && |x| == m.c.dim
    ensures |r| == m.c.nKvHeads * HeadSize(m.c)
  {
    var c, y := m.c, m.layers[l];
    assert ValidLayer(c, y);
    Shapes(c);
    Kept(int8, Times(y.wv, KvDim(c), c.dim, c.gs, Normed(m.lm, x, y.rmsAtt)), c.nKvHeads, HeadSize(c))
  }

  function QueryAt(m: Model, l: nat, x: Vec, pos: nat): (r: Vec)
    requires ValidModel(m) && l < m.c.nLayers && |x| == m.c.dim
    ensures |r| == m.c.dim
  {
    var c, y := m.c, m.layers[l];
    assert ValidLayer(c, y);
    Shapes(c);
    Turned(m.lm, Times(y.wq, c.dim, c.dim, c.gs, Normed(m.lm, x, y.rmsAtt)), HeadSize(c), pos)
  }

  /** The gated feed-forward network, with its residual. */
  function Fed(m: Model, l: nat, x: Vec): (r: Vec)
    requires ValidModel(m) && l < m.c.nLayers && |x| == m.c.dim
    ensures |r| == m.c.dim
  {
    var c, y := m.c, m.layers[l];
    assert ValidLayer(c, y);
    var n := Normed(m.lm, x, y.rmsFfn);
    var gate, up := Times(y.w1, c.hidden, c.dim, c.gs, n), Times(y.w3, c.hidden, c.dim, c.gs, n);
    var mid := seq(c.hidden, i requires 0 <= i < c.hidden => up[i] * (gate[i] * m.lm.sigmoid(gate[i])));
    Plus(Times(y.w2, c.dim, c.hidden, c.gs, mid), x)
  }

  /** What enters layer `l` at position `t`. */
  function Hidden(m: Model, int8: bool, toks: seq<nat>, l: nat, t: nat): (r: Vec)
    requires ValidModel(m) && ValidTokens(m, toks) && l <= m.c.nLayers && t < |toks|
    ensures |r| == m.c.dim
    decreases l
  {
    if l == 0 then RowOf(m.embed, m.c.vocab, m.c.dim, m.c.gs, toks[t])
    else
      var c, y, x := m.c, m.layers[l - 1], Hidden(m, int8, toks, l - 1, t);
      assert ValidLayer(c, y);
      var keys := seq(t + 1, u requires 0 <= u <= t => KeyAt(m, int8, l - 1, Hidden(m, int8, toks, l - 1, u), u));
      var vals := seq(t + 1, u requires 0 <= u <= t => ValueAt(m, int8, l - 1, Hidden(m, int8, toks, l - 1, u)));
      var heard := Heard(m.lm, HeadsOf(c), QueryAt(m, l - 1, x, t), keys, vals);
      Fed(m, l - 1, Plus(x, Times(y.wo, c.dim, c.dim, c.gs, heard)))
  }

  /** The scores of the next token. */
  function Scores(m: Model, int8: bool, toks: seq<nat>, t: nat): (r: Vec)
    requires ValidModel(m) && ValidTokens(m, toks) && t < |toks|
    ensures |r| == m.c.vocab
  {
    var c := m.c;
    Times(m.wcls, c.vocab, c.dim, c.gs, Normed(m.lm, Hidden(m, int8, toks, c.nLayers, t), m.rmsFinal))
  }
}
