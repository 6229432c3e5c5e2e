/**
 What decoding means without a cache: every layer is recomputed at every position it attends to. A
 stored row is what the cache would hold of a key or a value vector, exact or rounded to 8 bits.
 */
module Reference {
  import opened QMath
  import opened Kernels

  datatype Config = Config(dim: nat, hidden: nat, nLayers: nat, nHeads: nat, nKvHeads: nat, vocab: nat, gs: nat)

  function HeadSize(c: Config): nat
    requires c.nHeads > 0
  {
    c.dim / c.nHeads
  }

  /** Width of one key or value vector. */
  function KvDim(c: Config): nat
    requires c.nHeads > 0
  {
    c.dim * c.nKvHeads / c.nHeads
  }

  /** Query heads that share one key head. */
  function KvMul(c: Config): nat
    requires c.nKvHeads > 0
  {
    c.nHeads / c.nKvHeads
  }

  /** What the engine needs of a configuration: the sizes divide as the loops assume. */
  predicate ValidConfig(c: Config) {
    && c.dim > 0 && c.hidden > 0 && c.nHeads > 0 && c.nKvHeads > 0 && c.vocab > 0
    && c.dim % c.nHeads == 0 && c.nHeads % c.nKvHeads == 0
    && Groups(c.dim, c.gs) && Groups(c.hidden, c.gs)
    && c.dim % 2 == 0 && KvDim(c) % 2 == 0
  }

  datatype Layer = Layer(
    rmsAtt: seq<real>, rmsFfn: seq<real>,
    wq: Quant, wk: Quant, wv: Quant, wo: Quant, w1: Quant, w2: Quant, w3: Quant)

  datatype Model = Model(
    c: Config, lm: Libm, embed: Quant, layers: seq<Layer>, rmsFinal: seq<real>, wcls: Quant)

  predicate ValidLayer(c: Config, y: Layer)
    requires c.nHeads > 0
  {
    && |y.rmsAtt| == c.dim && |y.rmsFfn| == c.dim
    && IsMatrix(y.wq, c.dim, c.dim, c.gs) && IsMatrix(y.wo, c.dim, c.dim, c.gs)
    && IsMatrix(y.wk, KvDim(c), c.dim, c.gs) && IsMatrix(y.wv, KvDim(c), c.dim, c.gs)
    && IsMatrix(y.w1, c.hidden, c.dim, c.gs) && IsMatrix(y.w3, c.hidden, c.dim, c.gs)
    && IsMatrix(y.w2, c.dim, c.hidden, c.gs)
  }

  predicate ValidModel(m: Model) {
    && ValidConfig(m.c) && |m.layers| == m.c.nLayers && |m.rmsFinal| == m.c.dim
    && IsMatrix(m.embed, m.c.vocab, m.c.dim, m.c.gs) && IsMatrix(m.wcls, m.c.vocab, m.c.dim, m.c.gs)
    && forall l | 0 <= l < |m.layers| :: ValidLayer(m.c, m.layers[l])
  }

  /** The sizes as products: no head reaches past its vector. */
  lemma Shapes(c: Config)
    requires ValidConfig(c)
    ensures HeadSize(c) > 0 && KvMul(c) > 0
    ensures c.dim == c.nHeads * HeadSize(c) && KvDim(c) == c.nKvHeads * HeadSize(c)
    ensures c.nHeads == c.nKvHeads * KvMul(c) && KvDim(c) <= c.dim && KvDim(c) > 0
  {
    var hs, mul := HeadSize(c), KvMul(c);
    assert c.dim == c.nHeads * hs;
    assert c.nHeads == c.nKvHeads * mul;
    assert c.dim * c.nKvHeads == (c.nKvHeads * hs) * c.nHeads by {
      assert c.nHeads * hs * c.nKvHeads == (c.nKvHeads * hs) * c.nHeads;
    }
    GroupIndex(c.nHeads, c.nKvHeads * hs, 0);
    Positive(c.nHeads, hs);
    Positive(c.nKvHeads, mul);
    MulMonotone(1, mul, c.nKvHeads);
    MulMonotone(c.nKvHeads, c.nHeads, hs);
    MulMonotone(1, c.nKvHeads, hs);
  }

  lemma Positive(a: nat, b: nat)
    requires a * b > 0
    ensures b > 0
  {
  }

  // ---- stored rows ---------------------------------------------------------------------------

  /** A key or value vector as the cache keeps it. */
  datatype Row = Exact(v: seq<real>) | Int8(r: Quant)

  /** Rows of `heads` heads of `hs` elements; an 8-bit row has one scale a head. */
  predicate IsRow(row: Row, heads: nat, hs: nat) {
    hs > 0 &&
    match row
    case Exact(v) => |v| == heads * hs
    case Int8(r) => |r.q| == heads * hs && |r.s| == heads
  }

  lemma HeadFits(heads: nat, hs: nat, h: nat, j: nat)
    requires h < heads && j < hs
    ensures h * hs + j < heads * hs && h * hs + hs <= heads * hs
  {
    MulMonotone(h + 1, heads, hs);
  }

  /** Element `j` of head `h` of a stored row. */
  function Elem(row: Row, heads: nat, hs: nat, h: nat, j: nat): real
    requires IsRow(row, heads, hs) && h < heads && j < hs
  {
    HeadFits(heads, hs, h, j);
    match row
    case Exact(v) => v[h * hs + j]
    case Int8(r) => r.q[h * hs + j] as real * r.s[h]
  }

  /** Storing a vector. */
  function Stored(int8: bool, v: seq<real>, hs: nat): Row
    requires Groups(|v|, hs)
  {
    if int8 then Int8(Quantized(v, hs)) else Exact(v)
  }

  lemma StoredIsRow(int8: bool, v: seq<real>, heads: nat, hs: nat)
    requires hs > 0 && |v| == heads * hs
    ensures Groups(|v|, hs) && IsRow(Stored(int8, v, hs), heads, hs)
  {
    GroupIndex(hs, heads, 0);
    assert heads * hs == heads * hs / hs * hs + heads * hs % hs;
  }

  // ---- attention -----------------------------------------------------------------------------

  /** Sizes of the attention: query heads, key heads, head size, and query heads a key head. */
  datatype Heads = Heads(n: nat, kv: nat, hs: nat, mul: nat)

  predicate ValidHeads(a: Heads) { a.n > 0 && a.hs > 0 && a.mul > 0 && a.n == a.kv * a.mul }

  function HeadsOf(c: Config): (a: Heads)
    requires ValidConfig(c)
    ensures ValidHeads(a) && a.n * a.hs == c.dim && a.kv * a.hs == KvDim(c) && a.hs == HeadSize(c)
  {
    Shapes(c);
    Heads(c.nHeads, c.nKvHeads, HeadSize(c), KvMul(c))
  }

  lemma KvHeadOf(a: Heads, h: nat)
    requires ValidHeads(a) && h < a.n
    ensures h / a.mul < a.kv
  {
    assert h == h / a.mul * a.mul + h % a.mul;
    if h / a.mul >= a.kv { MulMonotone(a.kv, h / a.mul, a.mul); }
  }

  /** The key head a query head reads. */
  function KvHead(a: Heads, h: nat): (k: nat)
    requires ValidHeads(a) && h < a.n
    ensures k < a.kv
  {
    KvHeadOf(a, h);
    h / a.mul
  }

  /** The first `n` terms of the product of head `h` of a query with its part of a stored key. */
  function DotHead(a: Heads, q: seq<real>, row: Row, h: nat, n: nat): real
    requires ValidHeads(a) && |q| == a.n * a.hs && IsRow(row, a.kv, a.hs) && h < a.n && n <= a.hs
  {
    if n == 0 then 0.0
    else
      HeadFits(a.n, a.hs, h, n - 1);
      DotHead(a, q, row, h, n - 1) + q[h * a.hs + n - 1] * Elem(row, a.kv, a.hs, KvHead(a, h), n - 1)
  }

  predicate AreRows(a: Heads, rows: seq<Row>) { forall t | 0 <= t < |rows| :: IsRow(rows[t], a.kv, a.hs) }

  function Score(lm: Libm, a: Heads, q: seq<real>, row: Row, h: nat): real
    requires ValidHeads(a) && |q| == a.n * a.hs && IsRow(row, a.kv, a.hs) && h < a.n
  {
    DotHead(a, q, row, h, a.hs) * lm.rsqrt(a.hs as real)
  }

  /** How much head `h` attends to each position. */
  function Attention(lm: Libm, a: Heads, q: seq<real>, keys: seq<Row>, h: nat): (w: seq<real>)
    requires ValidHeads(a) && |q| == a.n * a.hs && AreRows(a, keys) && keys != [] && h < a.n
    ensures |w| == |keys|
  {
    Softmax(lm, seq(|keys|, t requires 0 <= t < |keys| => Score(lm, a, q, keys[t], h)))
  }

  /** The first `n` positions' share of element `j` of head `h`. */
  function Mixed(a: Heads, w: seq<real>, vals: seq<Row>, h: nat, j: nat, n: nat): real
    requires ValidHeads(a) && AreRows(a, vals) && |w| == |vals| && h < a.n && j < a.hs && n <= |vals|
  {
    if n == 0 then 0.0
    else Mixed(a, w, vals, h, j, n - 1) + w[n - 1] * Elem(vals[n - 1], a.kv, a.hs, KvHead(a, h), j)
  }

  lemma HeadOf(a: Heads, i: nat)
    requires ValidHeads(a) && i < a.n * a.hs
    ensures i / a.hs < a.n && i % a.hs < a.hs && i == i / a.hs * a.hs + i % a.hs
  {
    if i / a.hs >= a.n { MulMonotone(a.n, i / a.hs, a.hs); }
  }

  /** Element `i` of the attention output. */
  function AttendedAt(lm: Libm, a: Heads, q: seq<real>, keys: seq<Row>, vals: seq<Row>, i: nat): real
    requires ValidHeads(a) && |q| == a.n * a.hs && AreRows(a, keys) && AreRows(a, vals)
    requires |keys| == |vals| > 0 && i < a.n * a.hs
  {
    HeadOf(a, i);
    Mixed(a, Attention(lm, a, q, keys, i / a.hs), vals, i / a.hs, i % a.hs, |vals|)
  }

  function Attended(lm: Libm, a: Heads, q: seq<real>, keys: seq<Row>, vals: seq<Row>): (r: seq<real>)
    requires ValidHeads(a) && |q| == a.n * a.hs && AreRows(a, keys) && AreRows(a, vals) && |keys| == |vals| > 0
    ensures |r| == a.n * a.hs
  {
    seq(a.n * a.hs, i requires 0 <= i < a.n * a.hs => AttendedAt(lm, a, q, keys, vals, i))
  }

  // ---- layers --------------------------------------------------------------------------------

  /** A quantised product of a vector of length `n`. */
  function Product(x: seq<real>, w: Quant, rows: nat, n: nat, gs: nat): (r: seq<real>)
    requires |x| == n && IsMatrix(w, rows, n, gs)
    ensures |r| == rows
  {
    assert IsMatrix(Quantized(x, gs), 1, n, gs);
    MatVec(Quantized(x, gs), w, rows, n, gs)
  }

  function QueryOf(m: Model, l: nat, x: seq<real>, pos: nat): (r: seq<real>)
    requires ValidModel(m) && l < m.c.nLayers && |x| == m.c.dim
    ensures |r| == m.c.dim
  {
    assert ValidLayer(m.c, m.layers[l]);
    Shapes(m.c);
    Rotated(m.lm, Product(RmsNorm(m.lm, x, m.layers[l].rmsAtt), m.layers[l].wq, m.c.dim, m.c.dim, m.c.gs),
            HeadSize(m.c), pos)
  }

  function KeyOf(m: Model, l: nat, x: seq<real>, pos: nat): (r: seq<real>)
    requires ValidModel(m) && l < m.c.nLayers && |x| == m.c.dim
    ensures |r| == KvDim(m.c)
  {
    assert ValidLayer(m.c, m.layers[l]);
    Shapes(m.c);
    Rotated(m.lm, Product(RmsNorm(m.lm, x, m.layers[l].rmsAtt), m.layers[l].wk, KvDim(m.c), m.c.dim, m.c.gs),
            HeadSize(m.c), pos)
  }

  function ValueOf(m: Model, l: nat, x: seq<real>): (r: seq<real>)
    requires ValidModel(m) && l < m.c.nLayers && |x| == m.c.dim
    ensures |r| == KvDim(m.c)
  {
    assert ValidLayer(m.c, m.layers[l]);
    Product(RmsNorm(m.lm, x, m.layers[l].rmsAtt), m.layers[l].wv, KvDim(m.c), m.c.dim, m.c.gs)
  }

  function StoredRow(m: Model, int8: bool, v: seq<real>): (row: Row)
    requires ValidModel(m) && |v| == KvDim(m.c)
    ensures IsRow(row, m.c.nKvHeads, HeadSize(m.c))
  {
    Shapes(m.c);
    StoredIsRow(int8, v, m.c.nKvHeads, HeadSize(m.c));
    Stored(int8, v, HeadSize(m.c))
  }

  /** The feed-forward half of a layer. */
  function FeedForward(m: Model, l: nat, x: seq<real>): (r: seq<real>)
    requires ValidModel(m) && l < m.c.nLayers && |x| == m.c.dim
    ensures |r| == m.c.dim
  {
    var y := m.layers[l];
    assert ValidLayer(m.c, y);
    var n := RmsNorm(m.lm, x, y.rmsFfn);
    var a := Product(n, y.w1, m.c.hidden, m.c.dim, m.c.gs);
    var b := Product(n, y.w3, m.c.hidden, m.c.dim, m.c.gs);
    Added(x, Product(Gated(m.lm, a, b), y.w2, m.c.dim, m.c.hidden, m.c.gs))
  }

  /** The attention half of a layer, given what the cache holds for positions up to its own. */
  function Attend(m: Model, l: nat, x: seq<real>, keys: seq<Row>, vals: seq<Row>, pos: nat): (r: seq<real>)
    requires ValidModel(m) && l < m.c.nLayers && |x| == m.c.dim
    requires AreRows(HeadsOf(m.c), keys) && AreRows(HeadsOf(m.c), vals) && |keys| == |vals| > 0
    ensures |r| == m.c.dim
  {
    assert ValidLayer(m.c, m.layers[l]);
    Added(x, Product(Attended(m.lm, HeadsOf(m.c), QueryOf(m, l, x, pos), keys, vals),
                     m.layers[l].wo, m.c.dim, m.c.dim, m.c.gs))
  }

  // ---- the cache-free meaning ----------------------------------------------------------------

  function EmbedAt(m: Model, token: nat, i: nat): real
    requires ValidModel(m) && token < m.c.vocab && i < m.c.dim
  {
    EntryAt(m.embed, m.c.vocab, m.c.dim, m.c.gs, token, i)
  }

  /** The value of one entry of a quantised matrix. */
  function EntryAt(v: Quant, rows: nat, n: nat, gs: nat, r: nat, i: nat): real
    requires IsMatrix(v, rows, n, gs) && r < rows && i < n
  {
    RowFitsAt(v, rows, n, gs, r, i);
    v.q[r * n + i] as real * v.s[(r * n + i) / gs]
  }

  lemma RowFitsAt(v: Quant, rows: nat, n: nat, gs: nat, r: nat, i: nat)
    requires IsMatrix(v, rows, n, gs) && r < rows && i < n
    ensures r * n + i < |v.q| && (r * n + i) / gs < |v.s|
  {
    GroupOf(n, gs, i);
    RowBound(rows, n, r);
    RowBound(rows, n / gs, r);
    GroupInRow(r, n, gs, i);
  }

  /** The group of an element of row `r` is a group of that row. */
  lemma GroupInRow(r: nat, n: nat, gs: nat, i: nat)
    requires Groups(n, gs) && i < n
    ensures (r * n + i) / gs == r * (n / gs) + i / gs
  {
    var m, g, k := n / gs, i / gs, i % gs;
    assert n == m * gs && i == g * gs + k;
    RowGroup(r, m, g, gs, k);
  }

  lemma RowGroup(r: nat, m: nat, g: nat, gs: nat, k: nat)
    requires k < gs
    ensures (r * (m * gs) + (g * gs + k)) / gs == r * m + g
  {
    Regroup(r, m, g, gs);
    GroupIndex(gs, r * m + g, k);
  }

  function Embedded(m: Model, token: nat): (r: seq<real>)
    requires ValidModel(m) && token < m.c.vocab
    ensures |r| == m.c.dim
  {
    seq(m.c.dim, i requires 0 <= i < m.c.dim => EmbedAt(m, token, i))
  }

  predicate ValidTokens(m: Model, toks: seq<nat>) { forall t | 0 <= t < |toks| :: toks[t] < m.c.vocab }

  /** The residual stream that enters layer `l` at position `t`, recomputed from the tokens. */
  function Stream(m: Model, int8: bool, toks: seq<nat>, l: nat, t: nat): (r: seq<real>)
    requires ValidModel(m) && ValidTokens(m, toks) && l <= m.c.nLayers && t < |toks|
    ensures |r| == m.c.dim
    decreases l, 0
  {
    if l == 0 then Embedded(m, toks[t])
    else
      var x := Stream(m, int8, toks, l - 1, t);
      var keys := KeyRows(m, int8, toks, l - 1, t + 1);
      var vals := ValRows(m, int8, toks, l - 1, t + 1);
      FeedForward(m, l - 1, Attend(m, l - 1, x, keys, vals, t))
  }

  /** The key rows of layer `l` for the first `n` positions. */
  function KeyRows(m: Model, int8: bool, toks: seq<nat>, l: nat, n: nat): (rows: seq<Row>)
    requires ValidModel(m) && ValidTokens(m, toks) && l < m.c.nLayers && n <= |toks|
    ensures |rows| == n && AreRows(HeadsOf(m.c), rows)
    decreases l, 1, n
  {
    if n == 0 then []
    else
      KeyRows(m, int8, toks, l, n - 1) + [StoredRow(m, int8, KeyOf(m, l, Stream(m, int8, toks, l, n - 1), n - 1))]
  }

  function ValRows(m: Model, int8: bool, toks: seq<nat>, l: nat, n: nat): (rows: seq<Row>)
    requires ValidModel(m) && ValidTokens(m, toks) && l < m.c.nLayers && n <= |toks|
    ensures |rows| == n && AreRows(HeadsOf(m.c), rows)
    decreases l, 1, n
  {
    if n == 0 then []
    else ValRows(m, int8, toks, l, n - 1) + [StoredRow(m, int8, ValueOf(m, l, Stream(m, int8, toks, l, n - 1)))]
  }

  /** The logits after position `t`. */
  function Logits(m: Model, int8: bool, toks: seq<nat>, t: nat): (r: seq<real>)
    requires ValidModel(m) && ValidTokens(m, toks) && t < |toks|
    ensures |r| == m.c.vocab
  {
    Classify(m, Stream(m, int8, toks, m.c.nLayers, t))
  }

  function Classify(m: Model, x: seq<real>): (r: seq<real>)
    requires ValidModel(m) && |x| == m.c.dim
    ensures |r| == m.c.vocab
  {
    Product(RmsNorm(m.lm, x, m.rmsFinal), m.wcls, m.c.vocab, m.c.dim, m.c.gs)
  }

  // ---- causality -----------------------------------------------------------------------------

  /** Later tokens change nothing: a stream depends on the tokens up to its position only. */
  lemma {:induction false} StreamIsCausal(m: Model, int8: bool, a: seq<nat>, b: seq<nat>, l: nat, t: nat)
    requires ValidModel(m) && ValidTokens(m, a) && ValidTokens(m, b) && l <= m.c.nLayers
    requires t < |a| && t < |b| && a[..t + 1] == b[..t + 1]
    ensures Stream(m, int8, a, l, t) == Stream(m, int8, b, l, t)
    decreases l, 0
  {
    hide FeedForward, Attend, KeyRows, ValRows, ValidModel, ValidTokens;
    if l == 0 {
      assert a[t] == a[..t + 1][t] && b[t] == b[..t + 1][t];
    } else {
      StreamIsCausal(m, int8, a, b, l - 1, t);
      RowsAreCausal(m, int8, a, b, l - 1, t + 1);
    }
  }

  lemma {:induction false} RowsAreCausal(m: Model, int8: bool, a: seq<nat>, b: seq<nat>, l: nat, n: nat)
    requires ValidModel(m) && ValidTokens(m, a) && ValidTokens(m, b) && l < m.c.nLayers
    requires n <= |a| && n <= |b| && a[..n] == b[..n]
    ensures KeyRows(m, int8, a, l, n) == KeyRows(m, int8, b, l, n)
    ensures ValRows(m, int8, a, l, n) == ValRows(m, int8, b, l, n)
    decreases l, 1, n
  {
    hide Stream, KeyOf, ValueOf, StoredRow, ValidModel, ValidTokens;
    if n > 0 {
      assert a[..n - 1] == a[..n][..n - 1] && b[..n - 1] == b[..n][..n - 1];
      RowsAreCausal(m, int8, a, b, l, n - 1);
      StreamIsCausal(m, int8, a, b, l, n - 1);
    }
  }

  /** The logits after a position do not depend on the tokens that come later. */
  lemma LogitsAreCausal(m: Model, int8: bool, a: seq<nat>, b: seq<nat>, t: nat)
    requires ValidModel(m) && ValidTokens(m, a) && ValidTokens(m, b)
    requires t < |a| && t < |b| && a[..t + 1] == b[..t + 1]
    ensures Logits(m, int8, a, t) == Logits(m, int8, b, t)
  {
    hide Stream, Classify, ValidModel;
    StreamIsCausal(m, int8, a, b, m.c.nLayers, t);
  }
}
