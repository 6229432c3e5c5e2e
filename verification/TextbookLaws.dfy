/** The engine's reference computes the textbook transformer, if `exp` is an exponential. */
module TextbookLaws {
  import opened QMath
  import opened MatLaws
  import opened Kernels
  import opened KernelLaws
  import opened Reference
  import opened Textbook

  // ---- products ------------------------------------------------------------------------------

  lemma {:induction false} DotLast(a: Vec, b: Vec)
    requires |a| == |b| > 0
    ensures Dot(a, b) == Dot(a[..|a| - 1], b[..|b| - 1]) + a[|a| - 1] * b[|b| - 1]
  {
    var n := |a| - 1;
    if n == 0 {
      assert a[1..] == [] && b[1..] == [] && a[..0] == [] && b[..0] == [];
    } else {
      DotLast(a[1..], b[1..]);
      assert a[..n][1..] == a[1..][..n - 1] && b[..n][1..] == b[1..][..n - 1];
    }
  }

  lemma {:induction false} DotToIs(x: Vec, w: Quant, rows: nat, n: nat, gs: nat, i: nat, len: nat)
    requires IsMatrix(w, rows, n, gs) && |x| == n && i < rows && len <= n
    ensures IsMatrix(Quantized(x, gs), 1, n, gs)
    ensures DotTo(Quantized(x, gs), w, rows, n, gs, i, len) == Dot(RowOf(w, rows, n, gs, i)[..len], Rounded(x, gs)[..len])
  {
    hide Quantized, Deq, Dequantized;
    var a, b := RowOf(w, rows, n, gs, i), Rounded(x, gs);
    if len > 0 {
      DotToIs(x, w, rows, n, gs, i, len - 1);
      DotLast(a[..len], b[..len]);
      assert a[..len][..len - 1] == a[..len - 1] && b[..len][..len - 1] == b[..len - 1];
      LastTerm(x, w, rows, n, gs, i, len - 1);
    }
  }

  lemma LastTerm(x: Vec, w: Quant, rows: nat, n: nat, gs: nat, i: nat, j: nat)
    requires IsMatrix(w, rows, n, gs) && |x| == n && i < rows && j < n
    ensures i * n + j < |w.q| && Groups(|w.q|, gs) && |w.s| == |w.q| / gs
    ensures DeqTerm(Quantized(x, gs), w, gs, j, i * n + j) == RowOf(w, rows, n, gs, i)[j] * Rounded(x, gs)[j]
  {
    hide Quantized, Deq;
    ElementFits(w, rows, n, gs, i, j);
  }

  lemma TimesIs(w: Quant, rows: nat, n: nat, gs: nat, x: Vec)
    requires IsMatrix(w, rows, n, gs) && |x| == n
    ensures Textbook.Times(w, rows, n, gs, x) == Product(x, w, rows, n, gs)
  {
    hide Quantized, RowOf, Rounded, MatVec, DotTo;
    forall i | 0 <= i < rows ensures Textbook.Times(w, rows, n, gs, x)[i] == Product(x, w, rows, n, gs)[i] {
      DotToIs(x, w, rows, n, gs, i, n);
      MatmulIsDequantisedDot(Quantized(x, gs), w, rows, n, gs, i);
      assert RowOf(w, rows, n, gs, i)[..n] == RowOf(w, rows, n, gs, i) && Rounded(x, gs)[..n] == Rounded(x, gs);
    }
  }

  // ---- kernels -------------------------------------------------------------------------------

  lemma NormedIs(lm: Libm, x: Vec, w: Vec)
    requires x != [] && |w| == |x|
    ensures Normed(lm, x, w) == RmsNorm(lm, x, w)
  {
    hide SumSquares, Energy, Scaled3, Weighed;
    EnergyIs(x);
    forall i | 0 <= i < |x| ensures Normed(lm, x, w)[i] == RmsNorm(lm, x, w)[i] { Reordered(x[i], w[i], RmsFactor(lm, x)); }
  }

  lemma Reordered(x: real, w: real, f: real)
    ensures Scaled3(x, w, f) == Weighed(w, f, x)
  {
  }

  lemma TurnedIs(lm: Libm, v: Vec, hs: nat, pos: nat)
    requires hs > 0 && |v| % 2 == 0
    ensures Turned(lm, v, hs, pos) == Rotated(lm, v, hs, pos)
  {
    hide Rotated, Turned;
    forall i | 0 <= i < |v| ensures Turned(lm, v, hs, pos)[i] == Rotated(lm, v, hs, pos)[i] {
      var even := i / 2 * 2;
      assert even % 2 == 0 && (i == even || i == even + 1);
      SamePair(lm, v, hs, pos, even);
    }
  }

  lemma SamePair(lm: Libm, v: Vec, hs: nat, pos: nat, e: nat)
    requires hs > 0 && |v| % 2 == 0 && e % 2 == 0 && e < |v|
    ensures e + 1 < |v|
    ensures Turned(lm, v, hs, pos)[e] == Rotated(lm, v, hs, pos)[e]
    ensures Turned(lm, v, hs, pos)[e + 1] == Rotated(lm, v, hs, pos)[e + 1]
  {
    hide Rotated, Theta, TurnX, TurnY;
    ThetaIs(lm, e, hs, pos);
    TurnedPair(lm, v, hs, pos, e, Theta(lm, e, hs, pos));
    assert e / 2 * 2 == e && (e + 1) / 2 * 2 == e;
  }

  lemma ThetaIs(lm: Libm, e: nat, hs: nat, pos: nat)
    requires hs > 0
    ensures Theta(lm, e, hs, pos) == pos as real * lm.freq(e % hs, hs)
  {
  }

  lemma SharesIs(lm: Libm, v: Vec)
    requires v != [] && IsExp(lm)
    ensures Shares(lm, v) == Softmax(lm, v)
  {
    hide Softmax, IsExp, Sum;
    SoftmaxIs(lm, v);
  }

  // ---- stored rows ---------------------------------------------------------------------------

  /** A stored row stands for a vector. */
  ghost predicate RowIs(row: Row, v: Vec, heads: nat, hs: nat) {
    IsRow(row, heads, hs) && |v| == heads * hs && forall h: nat, j: nat | h < heads && j < hs :: ElemIs(row, v, heads, hs, h, j)
  }

  ghost predicate ElemIs(row: Row, v: Vec, heads: nat, hs: nat, h: nat, j: nat)
    requires IsRow(row, heads, hs) && |v| == heads * hs && h < heads && j < hs
  {
    HeadFits(heads, hs, h, j);
    Elem(row, heads, hs, h, j) == v[h * hs + j]
  }

  lemma StoredIs(int8: bool, v: Vec, heads: nat, hs: nat)
    requires hs > 0 && |v| == heads * hs
    ensures Groups(|v|, hs) && RowIs(Stored(int8, v, hs), Kept(int8, v, heads, hs), heads, hs)
  {
    hide Quantized;
    StoredIsRow(int8, v, heads, hs);
    forall h: nat, j: nat | h < heads && j < hs
      ensures ElemIs(Stored(int8, v, hs), Kept(int8, v, heads, hs), heads, hs, h, j)
    {
      HeadFits(heads, hs, h, j);
      GroupIndex(hs, h, j);
    }
  }

  /** Rows that stand for vectors. */
  ghost predicate RowsAre(rows: seq<Row>, vs: seq<Vec>, heads: nat, hs: nat) {
    |rows| == |vs| && forall t | 0 <= t < |rows| :: RowIs(rows[t], vs[t], heads, hs)
  }

  // ---- attention -----------------------------------------------------------------------------

  lemma {:induction false} DotHeadIs(a: Heads, q: Vec, row: Row, v: Vec, h: nat, n: nat)
    requires ValidHeads(a) && |q| == a.n * a.hs && RowIs(row, v, a.kv, a.hs) && h < a.n && n <= a.hs
    ensures h * a.hs + a.hs <= |q| && KvHead(a, h) * a.hs + a.hs <= |v|
    ensures DotHead(a, q, row, h, n) == Dot(HeadPart(q, a.hs, h)[..n], HeadPart(v, a.hs, KvHead(a, h))[..n])
  {
    hide Elem, RowIs, KvHead, MatLaws.Times, DotHead, Dot;
    HeadFits(a.n, a.hs, h, 0);
    RowWidth(row, v, a.kv, a.hs);
    HeadFits(a.kv, a.hs, KvHead(a, h), 0);
    var x, y := HeadPart(q, a.hs, h), HeadPart(v, a.hs, KvHead(a, h));
    if n > 0 {
      DotHeadIs(a, q, row, v, h, n - 1);
      DotNext(x, y, n - 1);
      DotHeadNext(a, q, row, h, n - 1);
      RowElem(row, v, a.kv, a.hs, KvHead(a, h), n - 1);
    } else {
      NoDot(a, q, row, h);
    }
  }

  lemma NoDot(a: Heads, q: Vec, row: Row, h: nat)
    requires ValidHeads(a) && |q| == a.n * a.hs && IsRow(row, a.kv, a.hs) && h < a.n
    ensures DotHead(a, q, row, h, 0) == 0.0 && Dot([], []) == 0.0
  {
  }

  lemma DotNext(x: Vec, y: Vec, n: nat)
    requires |x| == |y| && n < |x|
    ensures Dot(x[..n + 1], y[..n + 1]) == Dot(x[..n], y[..n]) + MatLaws.Times(x[n], y[n])
  {
    DotLast(x[..n + 1], y[..n + 1]);
    assert x[..n + 1][..n] == x[..n] && y[..n + 1][..n] == y[..n];
  }

  lemma DotHeadNext(a: Heads, q: Vec, row: Row, h: nat, n: nat)
    requires ValidHeads(a) && |q| == a.n * a.hs && IsRow(row, a.kv, a.hs) && h < a.n && n < a.hs
    ensures h * a.hs + n < |q| && KvHead(a, h) < a.kv
    ensures DotHead(a, q, row, h, n + 1) ==
            DotHead(a, q, row, h, n) + MatLaws.Times(q[h * a.hs + n], Elem(row, a.kv, a.hs, KvHead(a, h), n))
  {
    hide Elem, KvHead;
    HeadFits(a.n, a.hs, h, n);
  }

  lemma RowWidth(row: Row, v: Vec, heads: nat, hs: nat)
    requires RowIs(row, v, heads, hs)
    ensures |v| == heads * hs && IsRow(row, heads, hs)
  {
  }

  lemma RowElem(row: Row, v: Vec, heads: nat, hs: nat, h: nat, j: nat)
    requires RowIs(row, v, heads, hs) && h < heads && j < hs
    ensures h * hs + j < |v| && IsRow(row, heads, hs) && Elem(row, heads, hs, h, j) == v[h * hs + j]
  {
    hide Elem;
    HeadFits(heads, hs, h, j);
    assert ElemIs(row, v, heads, hs, h, j);
  }

  lemma AttendsIs(lm: Libm, a: Heads, q: Vec, rows: seq<Row>, keys: seq<Vec>, h: nat)
    requires ValidHeads(a) && |q| == a.n * a.hs && RowsAre(rows, keys, a.kv, a.hs) && rows != [] && h < a.n && IsExp(lm)
    ensures AreRows(a, rows) && Wide(a, keys)
    ensures Attends(lm, a, q, keys, h) == Attention(lm, a, q, rows, h)
  {
    hide RowIs, Dot, DotHead, IsExp, Softmax, Shares, Shared, KvHead;
    forall t | 0 <= t < |rows| ensures IsRow(rows[t], a.kv, a.hs) && |keys[t]| == a.kv * a.hs { RowWidth(rows[t], keys[t], a.kv, a.hs); }
    SharedIs(a, h);
    HeadFits(a.n, a.hs, h, 0);
    HeadFits(a.kv, a.hs, KvHead(a, h), 0);
    var textbook := seq(|keys|, t requires 0 <= t < |keys| =>
      Dot(HeadPart(q, a.hs, h), HeadPart(keys[t], a.hs, Shared(a, h))) * lm.rsqrt(a.hs as real));
    var scores := seq(|rows|, t requires 0 <= t < |rows| => Score(lm, a, q, rows[t], h));
    forall t | 0 <= t < |rows| ensures textbook[t] == scores[t] { ScoreIs(lm, a, q, rows[t], keys[t], h); }
    assert textbook == scores;
    SharesIs(lm, scores);
  }

  lemma ScoreIs(lm: Libm, a: Heads, q: Vec, row: Row, v: Vec, h: nat)
    requires ValidHeads(a) && |q| == a.n * a.hs && RowIs(row, v, a.kv, a.hs) && h < a.n
    ensures h * a.hs + a.hs <= |q| && KvHead(a, h) * a.hs + a.hs <= |v|
    ensures Score(lm, a, q, row, h) == Dot(HeadPart(q, a.hs, h), HeadPart(v, a.hs, KvHead(a, h))) * lm.rsqrt(a.hs as real)
  {
    hide RowIs, Dot, DotHead, KvHead;
    DotHeadIs(a, q, row, v, h, a.hs);
    var x, y := HeadPart(q, a.hs, h), HeadPart(v, a.hs, KvHead(a, h));
    assert x[..a.hs] == x && y[..a.hs] == y;
  }

  lemma {:induction false} MixedIs(a: Heads, w: Vec, rows: seq<Row>, vals: seq<Vec>, h: nat, j: nat, n: nat)
    requires ValidHeads(a) && RowsAre(rows, vals, a.kv, a.hs) && AreRows(a, rows) && |w| == |rows|
    requires h < a.n && j < a.hs && n <= |rows|
    requires forall t | 0 <= t < |vals| :: KvHead(a, h) * a.hs + j < |vals[t]|
    ensures Mixed(a, w, rows, h, j, n) == Dot(w[..n], Column(vals, a.hs, KvHead(a, h), j)[..n])
  {
    hide Elem, RowIs, KvHead;
    var column := Column(vals, a.hs, KvHead(a, h), j);
    if n > 0 {
      MixedIs(a, w, rows, vals, h, j, n - 1);
      DotLast(w[..n], column[..n]);
      assert w[..n][..n - 1] == w[..n - 1] && column[..n][..n - 1] == column[..n - 1];
      RowElem(rows[n - 1], vals[n - 1], a.kv, a.hs, KvHead(a, h), j);
    }
  }

  lemma HeardAt(lm: Libm, a: Heads, q: Vec, krows: seq<Row>, vrows: seq<Row>, keys: seq<Vec>, vals: seq<Vec>, i: nat)
    requires ValidHeads(a) && |q| == a.n * a.hs && RowsAre(krows, keys, a.kv, a.hs) && RowsAre(vrows, vals, a.kv, a.hs)
    requires |krows| == |vrows| > 0 && IsExp(lm) && i < a.n * a.hs
    ensures AreRows(a, krows) && AreRows(a, vrows) && Wide(a, keys) && Wide(a, vals)
    ensures Heard(lm, a, q, keys, vals)[i] == AttendedAt(lm, a, q, krows, vrows, i)
  {
    hide RowIs, Dot, Mixed, Attends, Attention, IsExp, Shared, KvHead;
    HeadOf(a, i);
    var h, j := i / a.hs, i % a.hs;
    AttendsIs(lm, a, q, krows, keys, h);
    AllWide(a, vrows, vals);
    SharedIs(a, h);
    HeadFits(a.kv, a.hs, KvHead(a, h), j);
    MixedIs(a, Attention(lm, a, q, krows, h), vrows, vals, h, j, |vrows|);
    var w, column := Attention(lm, a, q, krows, h), Column(vals, a.hs, KvHead(a, h), j);
    assert w[..|w|] == w && column[..|column|] == column;
  }

  lemma AllWide(a: Heads, rows: seq<Row>, vs: seq<Vec>)
    requires RowsAre(rows, vs, a.kv, a.hs)
    ensures AreRows(a, rows) && Wide(a, vs) && |rows| == |vs|
  {
    hide RowIs;
    forall t | 0 <= t < |rows| ensures IsRow(rows[t], a.kv, a.hs) && |vs[t]| == a.kv * a.hs { RowWidth(rows[t], vs[t], a.kv, a.hs); }
  }

  lemma HeardIs(lm: Libm, a: Heads, q: Vec, krows: seq<Row>, vrows: seq<Row>, keys: seq<Vec>, vals: seq<Vec>)
    requires ValidHeads(a) && |q| == a.n * a.hs && RowsAre(krows, keys, a.kv, a.hs) && RowsAre(vrows, vals, a.kv, a.hs)
    requires |krows| == |vrows| > 0 && IsExp(lm)
    ensures AreRows(a, krows) && AreRows(a, vrows) && Wide(a, keys) && Wide(a, vals)
    ensures Heard(lm, a, q, keys, vals) == Attended(lm, a, q, krows, vrows)
  {
    hide RowsAre, AttendedAt, Heard, IsExp, AreRows, Wide;
    AllWide(a, krows, keys);
    AllWide(a, vrows, vals);
    forall i | 0 <= i < a.n * a.hs ensures Heard(lm, a, q, keys, vals)[i] == Attended(lm, a, q, krows, vrows)[i] {
      HeardAt(lm, a, q, krows, vrows, keys, vals, i);
    }
  }

  // ---- layers --------------------------------------------------------------------------------

  lemma QueryIs(m: Model, l: nat, x: Vec, pos: nat)
    requires ValidModel(m) && l < m.c.nLayers && |x| == m.c.dim
    ensures QueryAt(m, l, x, pos) == QueryOf(m, l, x, pos)
  {
    hide Normed, RmsNorm, Textbook.Times, Product, Turned, Rotated, IsMatrix;
    assert ValidLayer(m.c, m.layers[l]);
    Shapes(m.c);
    NormedIs(m.lm, x, m.layers[l].rmsAtt);
    var n := RmsNorm(m.lm, x, m.layers[l].rmsAtt);
    TimesIs(m.layers[l].wq, m.c.dim, m.c.dim, m.c.gs, n);
    TurnedIs(m.lm, Product(n, m.layers[l].wq, m.c.dim, m.c.dim, m.c.gs), HeadSize(m.c), pos);
  }

  lemma KeyIs(m: Model, int8: bool, l: nat, x: Vec, pos: nat)
    requires ValidModel(m) && l < m.c.nLayers && |x| == m.c.dim
    ensures RowIs(StoredRow(m, int8, KeyOf(m, l, x, pos)), KeyAt(m, int8, l, x, pos), m.c.nKvHeads, HeadSize(m.c))
  {
    hide Normed, RmsNorm, Textbook.Times, Product, Turned, Rotated, IsMatrix, RowIs, Kept, Stored;
    assert ValidLayer(m.c, m.layers[l]);
    Shapes(m.c);
    NormedIs(m.lm, x, m.layers[l].rmsAtt);
    var n := RmsNorm(m.lm, x, m.layers[l].rmsAtt);
    TimesIs(m.layers[l].wk, KvDim(m.c), m.c.dim, m.c.gs, n);
    TurnedIs(m.lm, Product(n, m.layers[l].wk, KvDim(m.c), m.c.dim, m.c.gs), HeadSize(m.c), pos);
    StoredIs(int8, KeyOf(m, l, x, pos), m.c.nKvHeads, HeadSize(m.c));
  }

  lemma ValueIs(m: Model, int8: bool, l: nat, x: Vec)
    requires ValidModel(m) && l < m.c.nLayers && |x| == m.c.dim
    ensures RowIs(StoredRow(m, int8, ValueOf(m, l, x)), ValueAt(m, int8, l, x), m.c.nKvHeads, HeadSize(m.c))
  {
    hide Normed, RmsNorm, Textbook.Times, Product, IsMatrix, RowIs, Kept, Stored;
    assert ValidLayer(m.c, m.layers[l]);
    Shapes(m.c);
    NormedIs(m.lm, x, m.layers[l].rmsAtt);
    TimesIs(m.layers[l].wv, KvDim(m.c), m.c.dim, m.c.gs, RmsNorm(m.lm, x, m.layers[l].rmsAtt));
    StoredIs(int8, ValueOf(m, l, x), m.c.nKvHeads, HeadSize(m.c));
  }

  lemma FedIs(m: Model, l: nat, x: Vec)
    requires ValidModel(m) && l < m.c.nLayers && |x| == m.c.dim
    ensures Fed(m, l, x) == FeedForward(m, l, x)
  {
    hide Normed, RmsNorm, Textbook.Times, Product, IsMatrix;
    var c, y := m.c, m.layers[l];
    assert ValidLayer(c, y);
    NormedIs(m.lm, x, y.rmsFfn);
    var n := RmsNorm(m.lm, x, y.rmsFfn);
    TimesIs(y.w1, c.hidden, c.dim, c.gs, n);
    TimesIs(y.w3, c.hidden, c.dim, c.gs, n);
    var gate, up := Product(n, y.w1, c.hidden, c.dim, c.gs), Product(n, y.w3, c.hidden, c.dim, c.gs);
    var mid := seq(c.hidden, i requires 0 <= i < c.hidden => up[i] * (gate[i] * m.lm.sigmoid(gate[i])));
    GateIs(m.lm, gate, up, mid);
    TimesIs(y.w2, c.dim, c.hidden, c.gs, mid);
    PlusIs(Product(mid, y.w2, c.dim, c.hidden, c.gs), x);
  }

  lemma GateIs(lm: Libm, gate: Vec, up: Vec, mid: Vec)
    requires |gate| == |up| == |mid| && forall i | 0 <= i < |mid| :: mid[i] == up[i] * (gate[i] * lm.sigmoid(gate[i]))
    ensures mid == Gated(lm, gate, up)
  {
    forall i | 0 <= i < |mid| ensures mid[i] == Gated(lm, gate, up)[i] { Either(up[i], gate[i] * lm.sigmoid(gate[i])); }
  }

  lemma Either(a: real, b: real)
    ensures a * b == b * a
  {
  }

  lemma PlusIs(y: Vec, x: Vec)
    requires |x| == |y|
    ensures Textbook.Plus(y, x) == Added(x, y) && Textbook.Plus(y, x) == Textbook.Plus(x, y)
  {
  }

  // ---- the whole model -----------------------------------------------------------------------

  lemma {:induction false} KeyRowAt(m: Model, int8: bool, toks: seq<nat>, l: nat, n: nat, u: nat)
    requires ValidModel(m) && ValidTokens(m, toks) && l < m.c.nLayers && u < n <= |toks|
    ensures KeyRows(m, int8, toks, l, n)[u] == StoredRow(m, int8, KeyOf(m, l, Stream(m, int8, toks, l, u), u))
    ensures ValRows(m, int8, toks, l, n)[u] == StoredRow(m, int8, ValueOf(m, l, Stream(m, int8, toks, l, u)))
    decreases n
  {
    hide ValidModel, ValidTokens, Stream, KeyOf, ValueOf, StoredRow, HeadsOf;
    if u < n - 1 { KeyRowAt(m, int8, toks, l, n - 1, u); }
  }

  /** What enters a layer is what the textbook says, at every position. */
  lemma {:induction false} HiddenIs(m: Model, int8: bool, toks: seq<nat>, l: nat, t: nat)
    requires ValidModel(m) && ValidTokens(m, toks) && l <= m.c.nLayers && t < |toks| && IsExp(m.lm)
    ensures Hidden(m, int8, toks, l, t) == Stream(m, int8, toks, l, t)
    decreases l
  {
    hide ValidModel, IsExp, FeedForward, Attend, Fed, Heard, KeyAt, ValueAt, QueryAt, Textbook.Times, KeyRows, ValRows, RowsAre;
    if l == 0 {
      EmbeddingIs(m, toks[t]);
    } else {
      var k := l - 1;
      forall u | 0 <= u <= t ensures Hidden(m, int8, toks, k, u) == Stream(m, int8, toks, k, u) {
        HiddenIs(m, int8, toks, k, u);
      }
      LayerIs(m, int8, toks, k, t);
    }
  }

  lemma LayerIs(m: Model, int8: bool, toks: seq<nat>, l: nat, t: nat)
    requires ValidModel(m) && ValidTokens(m, toks) && l < m.c.nLayers && t < |toks| && IsExp(m.lm)
    requires forall u | 0 <= u <= t :: Hidden(m, int8, toks, l, u) == Stream(m, int8, toks, l, u)
    ensures Hidden(m, int8, toks, l + 1, t) == Stream(m, int8, toks, l + 1, t)
  {
    hide IsExp, FeedForward, Fed, Heard, KeyAt, ValueAt, QueryAt, QueryOf, Textbook.Times, KeyRows, ValRows, RowsAre, IsMatrix, Product, Attended;
    var c, y, x := m.c, m.layers[l], Stream(m, int8, toks, l, t);
    assert ValidLayer(c, y);
    var keys := seq(t + 1, u requires 0 <= u <= t => KeyAt(m, int8, l, Hidden(m, int8, toks, l, u), u));
    var vals := seq(t + 1, u requires 0 <= u <= t => ValueAt(m, int8, l, Hidden(m, int8, toks, l, u)));
    var krows, vrows := KeyRows(m, int8, toks, l, t + 1), ValRows(m, int8, toks, l, t + 1);
    RowsStand(m, int8, toks, l, t, keys, vals);
    var a := HeadsOf(c);
    QueryIs(m, l, x, t);
    HeardIs(m.lm, a, QueryOf(m, l, x, t), krows, vrows, keys, vals);
    var heard := Attended(m.lm, a, QueryOf(m, l, x, t), krows, vrows);
    TimesIs(y.wo, c.dim, c.dim, c.gs, heard);
    PlusIs(Product(heard, y.wo, c.dim, c.dim, c.gs), x);
    FedIs(m, l, Attend(m, l, x, krows, vrows, t));
  }

  lemma RowsStand(m: Model, int8: bool, toks: seq<nat>, l: nat, t: nat, keys: seq<Vec>, vals: seq<Vec>)
    requires ValidModel(m) && ValidTokens(m, toks) && l < m.c.nLayers && t < |toks| && |keys| == |vals| == t + 1
    requires forall u | 0 <= u <= t :: Hidden(m, int8, toks, l, u) == Stream(m, int8, toks, l, u)
    requires forall u | 0 <= u <= t :: keys[u] == KeyAt(m, int8, l, Hidden(m, int8, toks, l, u), u)
    requires forall u | 0 <= u <= t :: vals[u] == ValueAt(m, int8, l, Hidden(m, int8, toks, l, u))
    ensures RowsAre(KeyRows(m, int8, toks, l, t + 1), keys, HeadsOf(m.c).kv, HeadsOf(m.c).hs)
    ensures RowsAre(ValRows(m, int8, toks, l, t + 1), vals, HeadsOf(m.c).kv, HeadsOf(m.c).hs)
  {
    hide ValidModel, ValidTokens, Hidden, Stream, KeyAt, ValueAt, KeyOf, ValueOf, StoredRow, RowIs, KeyRows, ValRows;
    forall u | 0 <= u <= t
      ensures RowIs(KeyRows(m, int8, toks, l, t + 1)[u], keys[u], m.c.nKvHeads, HeadSize(m.c))
      ensures RowIs(ValRows(m, int8, toks, l, t + 1)[u], vals[u], m.c.nKvHeads, HeadSize(m.c))
    {
      KeyRowAt(m, int8, toks, l, t + 1, u);
      KeyIs(m, int8, l, Stream(m, int8, toks, l, u), u);
      ValueIs(m, int8, l, Stream(m, int8, toks, l, u));
    }
  }

  lemma EmbeddingIs(m: Model, token: nat)
    requires ValidModel(m) && token < m.c.vocab
    ensures RowOf(m.embed, m.c.vocab, m.c.dim, m.c.gs, token) == Embedded(m, token)
  {
    hide ValidLayer;
    var c := m.c;
    forall i | 0 <= i < c.dim ensures RowOf(m.embed, c.vocab, c.dim, c.gs, token)[i] == EmbedAt(m, token, i) {
      ElementFits(m.embed, c.vocab, c.dim, c.gs, token, i);
    }
  }

  /** The logits of the engine are the scores of the textbook transformer. */
  lemma LogitsAreTextbook(m: Model, int8: bool, toks: seq<nat>, t: nat)
    requires ValidModel(m) && ValidTokens(m, toks) && t < |toks| && IsExp(m.lm)
    ensures Logits(m, int8, toks, t) == Scores(m, int8, toks, t)
  {
    hide Hidden, Stream, Normed, RmsNorm, Textbook.Times, Product, IsMatrix, IsExp, ValidLayer;
    HiddenIs(m, int8, toks, m.c.nLayers, t);
    var x := Stream(m, int8, toks, m.c.nLayers, t);
    NormedIs(m.lm, x, m.rmsFinal);
    TimesIs(m.wcls, m.c.vocab, m.c.dim, m.c.gs, RmsNorm(m.lm, x, m.rmsFinal));
  }
}
