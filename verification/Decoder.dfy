/** Decoding with a cache: one step at a position, and whole runs. */
module Decoder {
  import opened QMath
  import opened Kernels
  import opened Reference
  import opened Cache
  import opened MultiHead
  import opened Steps

  // ---- what the cache holds ------------------------------------------------------------------

  /** The slot of a layer and position. */
  function SlotOf(ctx: nat, l: nat, pos: nat): nat { l * ctx + pos }

  lemma SlotIn(layers: nat, ctx: nat, l: nat, n: nat)
    requires l < layers && n <= ctx
    ensures SlotOf(ctx, l, n) <= layers * ctx
  {
    MulMonotone(l + 1, layers, ctx);
  }

  /** The first `n` rows of layer `l`. */
  ghost function Part(rows: seq<Row>, layers: nat, ctx: nat, l: nat, n: nat): (part: seq<Row>)
    requires |rows| == layers * ctx && l < layers && n <= ctx
    ensures |part| == n
  {
    SlotIn(layers, ctx, l, n);
    Slice(rows, SlotOf(ctx, l, 0), n)
  }

  /** Layer `l` holds the keys and values of the first `n` positions. */
  ghost predicate LayerCached(m: Model, int8: bool, toks: seq<nat>, ctx: nat, ks: seq<Row>, vs: seq<Row>, l: nat, n: nat)
    requires ValidModel(m) && ValidTokens(m, toks) && n <= |toks| && n <= ctx && l < m.c.nLayers
    requires |ks| == |vs| == m.c.nLayers * ctx
  {
    && Part(ks, m.c.nLayers, ctx, l, n) == KeyRows(m, int8, toks, l, n)
    && Part(vs, m.c.nLayers, ctx, l, n) == ValRows(m, int8, toks, l, n)
  }

  /** A step in progress: layers below `done` hold one position more than the `n` of the others. */
  ghost predicate LayerUpTo(m: Model, int8: bool, toks: seq<nat>, ctx: nat, ks: seq<Row>, vs: seq<Row>, n: nat, done: nat, l: nat)
    requires ValidModel(m) && ValidTokens(m, toks) && n < |toks| && n < ctx && l < m.c.nLayers
    requires |ks| == |vs| == m.c.nLayers * ctx
  {
    LayerCached(m, int8, toks, ctx, ks, vs, l, if l < done then n + 1 else n)
  }

  /** Layers below `done` hold one position more than the others, which hold `n`. */
  ghost predicate CachedTo(m: Model, int8: bool, toks: seq<nat>, ctx: nat, ks: seq<Row>, vs: seq<Row>, n: nat, done: nat) {
    && ValidModel(m) && ValidTokens(m, toks) && n < |toks| && n < ctx
    && |ks| == |vs| == m.c.nLayers * ctx
    && forall l | 0 <= l < m.c.nLayers :: LayerUpTo(m, int8, toks, ctx, ks, vs, n, done, l)
  }

  /** Every layer holds the keys and values of the first `n` positions. Rows beyond them may hold anything. */
  ghost predicate Cached(m: Model, int8: bool, toks: seq<nat>, ctx: nat, ks: seq<Row>, vs: seq<Row>, n: nat) {
    && ValidModel(m) && ValidTokens(m, toks) && n <= |toks| && n <= ctx
    && |ks| == |vs| == m.c.nLayers * ctx
    && forall l | 0 <= l < m.c.nLayers :: LayerCached(m, int8, toks, ctx, ks, vs, l, n)
  }

  /** Only rows of position `pos` differ. */
  ghost predicate OnlyPosition(was: seq<Row>, now: seq<Row>, ctx: nat, pos: nat) {
    ctx > 0 && |was| == |now| && forall p | 0 <= p < |was| && p % ctx != pos :: now[p] == was[p]
  }

  lemma PutPart(rows: seq<Row>, layers: nat, ctx: nat, l: nat, pos: nat, row: Row, p: nat, n: nat)
    requires |rows| == layers * ctx && l < layers && pos < ctx && p < layers && n <= ctx
    ensures SlotOf(ctx, l, pos) < |rows|
    ensures p != l ==> Part(rows[SlotOf(ctx, l, pos) := row], layers, ctx, p, n) == Part(rows, layers, ctx, p, n)
    ensures Part(rows[SlotOf(ctx, l, pos) := row], layers, ctx, l, pos + 1) == Part(rows, layers, ctx, l, pos) + [row]
  {
    SlotIn(layers, ctx, l, pos + 1);
    SlotIn(layers, ctx, p, n);
    if p != l { SlotsApart(ctx, l, p); }
  }

  lemma PutOnly(was: seq<Row>, now: seq<Row>, ctx: nat, l: nat, pos: nat, row: Row)
    requires OnlyPosition(was, now, ctx, pos) && SlotOf(ctx, l, pos) < |now| && pos < ctx
    ensures OnlyPosition(was, now[SlotOf(ctx, l, pos) := row], ctx, pos)
  {
    var s := SlotOf(ctx, l, pos);
    GroupIndex(ctx, l, pos);
    assert s == s / ctx * ctx + s % ctx;
  }

  /** Storing position `n` in layer `l` completes that layer and leaves the others alone. */
  lemma StoreLayer(m: Model, int8: bool, toks: seq<nat>, ctx: nat, ks: seq<Row>, vs: seq<Row>, n: nat, l: nat)
    requires CachedTo(m, int8, toks, ctx, ks, vs, n, l) && l < m.c.nLayers
    ensures SlotOf(ctx, l, n) < |ks| && l <= m.c.nLayers
    ensures var x := Stream(m, int8, toks, l, n);
            CachedTo(m, int8, toks, ctx,
                     ks[SlotOf(ctx, l, n) := StoredRow(m, int8, KeyOf(m, l, x, n))],
                     vs[SlotOf(ctx, l, n) := StoredRow(m, int8, ValueOf(m, l, x))], n, l + 1)
  {
    hide Part, Stream, KeyOf, ValueOf, StoredRow, ValidModel, SlotOf, ValidTokens;
    var x := Stream(m, int8, toks, l, n);
    var k, v := StoredRow(m, int8, KeyOf(m, l, x, n)), StoredRow(m, int8, ValueOf(m, l, x));
    PutPart(ks, m.c.nLayers, ctx, l, n, k, l, n);
    var ks1, vs1 := ks[SlotOf(ctx, l, n) := k], vs[SlotOf(ctx, l, n) := v];
    var next := l + 1;
    forall p | 0 <= p < m.c.nLayers ensures LayerUpTo(m, int8, toks, ctx, ks1, vs1, n, next, p)
    {
      var done := if p < l then n + 1 else n;
      assert LayerUpTo(m, int8, toks, ctx, ks, vs, n, l, p);
      PutPart(ks, m.c.nLayers, ctx, l, n, k, p, done);
      PutPart(vs, m.c.nLayers, ctx, l, n, v, p, done);
    }
  }

  /** The rows a layer attends to, once its own position is stored. */
  lemma LayerHolds(m: Model, int8: bool, toks: seq<nat>, ctx: nat, ks: seq<Row>, vs: seq<Row>, n: nat, l: nat)
    requires CachedTo(m, int8, toks, ctx, ks, vs, n, l + 1) && l < m.c.nLayers
    ensures Part(ks, m.c.nLayers, ctx, l, n + 1) == KeyRows(m, int8, toks, l, n + 1)
    ensures Part(vs, m.c.nLayers, ctx, l, n + 1) == ValRows(m, int8, toks, l, n + 1)
  {
    hide Part, KeyRows, ValRows, ValidModel, ValidTokens;
    assert LayerUpTo(m, int8, toks, ctx, ks, vs, n, l + 1, l);
  }

  lemma StepStarts(m: Model, int8: bool, toks: seq<nat>, ctx: nat, ks: seq<Row>, vs: seq<Row>, n: nat)
    requires Cached(m, int8, toks, ctx, ks, vs, n) && n < |toks| && n < ctx
    ensures CachedTo(m, int8, toks, ctx, ks, vs, n, 0)
  {
    hide LayerCached, ValidModel, ValidTokens;
  }

  lemma StepEnds(m: Model, int8: bool, toks: seq<nat>, ctx: nat, ks: seq<Row>, vs: seq<Row>, n: nat)
    requires CachedTo(m, int8, toks, ctx, ks, vs, n, m.c.nLayers)
    ensures Cached(m, int8, toks, ctx, ks, vs, n + 1)
  {
    hide LayerCached, ValidModel, ValidTokens;
    var next := n + 1;
    forall l | 0 <= l < m.c.nLayers ensures LayerCached(m, int8, toks, ctx, ks, vs, l, next) {
      assert LayerUpTo(m, int8, toks, ctx, ks, vs, n, m.c.nLayers, l);
    }
  }

  /** What a cache holds for a run is what it holds for any run that begins the same way. */
  lemma CachedForPrefix(m: Model, int8: bool, a: seq<nat>, b: seq<nat>, ctx: nat, ks: seq<Row>, vs: seq<Row>, n: nat)
    requires Cached(m, int8, a, ctx, ks, vs, n) && ValidTokens(m, b) && n <= |b| && a[..n] == b[..n]
    ensures Cached(m, int8, b, ctx, ks, vs, n)
  {
    hide ValidModel, ValidTokens, KeyRows, ValRows, Part;
    forall l | 0 <= l < m.c.nLayers ensures LayerCached(m, int8, b, ctx, ks, vs, l, n) {
      assert LayerCached(m, int8, a, ctx, ks, vs, l, n);
      RowsAreCausal(m, int8, a, b, l, n);
    }
  }

  /** A layer's rows, read out of the cache. */
  lemma PartOfCache(cache: RowCache, layers: nat, ctx: nat, l: nat, n: nat)
    requires cache.Valid() && cache.slots == layers * ctx && l < layers && n <= ctx
    ensures SlotOf(ctx, l, 0) + n <= cache.slots
    ensures RowsFrom(cache, SlotOf(ctx, l, 0), n) == Part(cache.Rows(), layers, ctx, l, n)
  {
    hide RowCache.Valid, RowCache.RowAt, RowCache.Rows;
    SlotIn(layers, ctx, l, n);
  }

  /** The next stream, from the cached rows. */
  lemma StreamNext(m: Model, int8: bool, toks: seq<nat>, l: nat, t: nat)
    requires ValidModel(m) && ValidTokens(m, toks) && l < m.c.nLayers && t < |toks|
    ensures Stream(m, int8, toks, l + 1, t) ==
            FeedForward(m, l, Attend(m, l, Stream(m, int8, toks, l, t), KeyRows(m, int8, toks, l, t + 1),
                                     ValRows(m, int8, toks, l, t + 1), t))
  {
    hide FeedForward, Attend, KeyRows, ValRows;
  }

  lemma AttendIs(m: Model, l: nat, x: seq<real>, keys: seq<Row>, vals: seq<Row>, pos: nat)
    requires ValidModel(m) && l < m.c.nLayers && |x| == m.c.dim
    requires AreRows(HeadsOf(m.c), keys) && AreRows(HeadsOf(m.c), vals) && |keys| == |vals| > 0
    ensures Attend(m, l, x, keys, vals, pos) ==
            Added(x, OutOf(m, l, Attended(m.lm, HeadsOf(m.c), QueryOf(m, l, x, pos), keys, vals)))
  {
    hide Attended, QueryOf, Added, Product;
  }

  lemma HeadSizes(c: Config)
    requires ValidConfig(c)
    ensures c.gs > 0 && c.nHeads > 0 && c.nKvHeads > 0 && HeadSize(c) > 0
    ensures HeadsOf(c).n == c.nHeads
  {
    Shapes(c);
  }

  /** A key or value vector has the size of a row. */
  lemma RowSizes(m: Model, cache: RowCache, v: seq<real>)
    requires ValidModel(m) && Fits(cache, HeadsOf(m.c)) && |v| == KvDim(m.c)
    ensures |v| == cache.heads * cache.hs && cache.hs == HeadSize(m.c) && Groups(|v|, cache.hs)
  {
    StoredIsRow(true, v, cache.heads, cache.hs);
  }

  lemma StoredRowIs(m: Model, int8: bool, v: seq<real>)
    requires ValidModel(m) && |v| == KvDim(m.c)
    ensures Groups(|v|, HeadSize(m.c)) && StoredRow(m, int8, v) == Stored(int8, v, HeadSize(m.c))
  {
    hide Stored;
    Shapes(m.c);
    StoredIsRow(int8, v, m.c.nKvHeads, HeadSize(m.c));
  }

  lemma FitsHeads(cache: RowCache, c: Config)
    requires ValidConfig(c) && cache.Valid() && cache.heads == c.nKvHeads && cache.hs == HeadSize(c)
    ensures Fits(cache, HeadsOf(c))
  {
    hide RowCache.Valid;
  }

  // ---- one step ------------------------------------------------------------------------------

  /** Four zeroed buffers. */
  method NewFour(i: nat, j: nat, k: nat, l: nat) returns (a: array<real>, b: array<real>, c: array<real>, d: array<real>)
    ensures a.Length == i && b.Length == j && c.Length == k && d.Length == l
    ensures fresh(a) && fresh(b) && fresh(c) && fresh(d) && a != b && a != c && a != d && b != c && b != d && c != d
  {
    a := new real[i](n => 0.0);
    b := new real[j](n => 0.0);
    c := new real[k](n => 0.0);
    d := new real[l](n => 0.0);
  }

  class RunState {
    const c: Config
    const ctx: nat
    const int8: bool
    const x: array<real>
    const xb: array<real>
    const xb2: array<real>
    const hb: array<real>
    const hb2: array<real>
    const xqQ: array<int>
    const xqS: array<real>
    const hqQ: array<int>
    const hqS: array<real>
    const q: array<real>
    const k: array<real>
    const v: array<real>
    const att: array<real>
    const logits: array<real>
    const keys: RowCache
    const vals: RowCache

    constructor (c: Config, ctx: nat, int8: bool)
      requires ValidConfig(c)
      ensures Valid() && this.c == c && this.ctx == ctx && this.int8 == int8
      ensures fresh(Reals()) && fresh(Ints())
    {
      hide HeadsOf, KvDim, HeadSize, KvMul, RowCache.Valid, RowCache.RowAt, ValidConfig, Fits;
      HeadSizes(c);
      this.c, this.ctx, this.int8 := c, ctx, int8;
      var a0, a1, a2, a3 := NewFour(c.dim, c.dim, c.dim, c.dim);
      var b0, b1, b2, b3 := NewFour(c.hidden, c.hidden, c.dim / c.gs, c.hidden / c.gs);
      assert AllOff(b0, b1, b2, b3, a0, a1, a2, a3);
      var c0, c1, c2, c3 := NewFour(KvDim(c), KvDim(c), c.nHeads * ctx, c.vocab);
      assert AllOff(c0, c1, c2, c3, a0, a1, a2, a3) && AllOff(c0, c1, c2, c3, b0, b1, b2, b3);
      var i0, i1 := new int[c.dim](i => 0), new int[c.hidden](i => 0);
      var kc := new RowCache(int8, c.nLayers * ctx, c.nKvHeads, HeadSize(c));
      assert OffAll(kc.exact, a0, a1, a2, a3) && OffAll(kc.exact, b0, b1, b2, b3) && OffAll(kc.exact, c0, c1, c2, c3);
      assert OffAll(kc.s, a0, a1, a2, a3) && OffAll(kc.s, b0, b1, b2, b3) && OffAll(kc.s, c0, c1, c2, c3);
      var vc := new RowCache(int8, c.nLayers * ctx, c.nKvHeads, HeadSize(c));
      assert OffAll(vc.exact, a0, a1, a2, a3) && OffAll(vc.exact, b0, b1, b2, b3) && OffAll(vc.exact, c0, c1, c2, c3);
      assert OffAll(vc.s, a0, a1, a2, a3) && OffAll(vc.s, b0, b1, b2, b3) && OffAll(vc.s, c0, c1, c2, c3);
      x, xb, xb2, q := a0, a1, a2, a3;
      hb, hb2, xqS, hqS := b0, b1, b2, b3;
      k, v, att, logits := c0, c1, c2, c3;
      xqQ, hqQ, keys, vals := i0, i1, kc, vc;
      new;
      assert Fits(keys, HeadsOf(c)) && Fits(vals, HeadsOf(c)) by { FitsHeads(keys, c); FitsHeads(vals, c); }
      assert Sized();
      assert Apart();
    }

    ghost function Reals(): set<array<real>> {
      {x, xb, xb2, hb, hb2, xqS, hqS, q, k, v, att, logits, keys.exact, keys.s, vals.exact, vals.s}
    }

    ghost function Ints(): set<array<int>> { {xqQ, hqQ, keys.q, vals.q} }

    /** The buffers have their sizes. */
    ghost predicate Sized() {
      && ValidConfig(c)
      && x.Length == xb.Length == xb2.Length == xqQ.Length == q.Length == c.dim && xqS.Length == c.dim / c.gs
      && hb.Length == hb2.Length == hqQ.Length == c.hidden && hqS.Length == c.hidden / c.gs
      && k.Length == v.Length == KvDim(c) && att.Length == c.nHeads * ctx && logits.Length == c.vocab
    }

    ghost predicate CacheSized(cache: RowCache) {
      && ValidConfig(c) && Fits(cache, HeadsOf(c)) && cache.int8 == int8 && cache.slots == c.nLayers * ctx
    }

    static ghost predicate OffAll(a: array<real>, b: array<real>, c: array<real>, d: array<real>, e: array<real>) {
      a != b && a != c && a != d && a != e
    }

    static ghost predicate AllOff(a: array<real>, b: array<real>, c: array<real>, d: array<real>,
                                  e: array<real>, f: array<real>, g: array<real>, h: array<real>) {
      OffAll(a, e, f, g, h) && OffAll(b, e, f, g, h) && OffAll(c, e, f, g, h) && OffAll(d, e, f, g, h)
    }

    static ghost predicate Different(a: array<real>, b: array<real>, c: array<real>, d: array<real>) {
      a != b && a != c && a != d && b != c && b != d && c != d
    }

    /** No two buffers are the same. */
    ghost predicate Apart() {
      && Different(x, xb, xb2, q) && Different(hb, hb2, xqS, hqS) && Different(k, v, att, logits)
      && AllOff(hb, hb2, xqS, hqS, x, xb, xb2, q) && AllOff(k, v, att, logits, x, xb, xb2, q)
      && AllOff(k, v, att, logits, hb, hb2, xqS, hqS) && xqQ != hqQ
    }

    /** A cache buffer is none of the scratch. */
    ghost predicate OffScratch(a: array<real>) {
      OffAll(a, x, xb, xb2, q) && OffAll(a, hb, hb2, xqS, hqS) && OffAll(a, k, v, att, logits)
    }

    ghost predicate Clear(cache: RowCache) {
      && OffScratch(cache.exact) && OffScratch(cache.s) && cache.q != xqQ && cache.q != hqQ
    }

    ghost predicate Valid() {
      && Sized() && CacheSized(keys) && CacheSized(vals) && Apart() && Clear(keys) && Clear(vals)
      && Different(keys.exact, keys.s, vals.exact, vals.s) && keys.q != vals.q
    }

    /** Queries, keys and values; then the position's row goes into both caches. */
    method Project(m: Model, l: nat, pos: nat)
      requires Valid() && ValidModel(m) && m.c == c && l < c.nLayers && pos < ctx
      requires SlotOf(ctx, l, pos) < keys.slots
      modifies xb, xqQ, xqS, q, k, v, keys.exact, keys.q, keys.s, vals.exact, vals.q, vals.s
      ensures q[..] == QueryOf(m, l, x[..], pos)
      ensures keys.Rows() == old(keys.Rows())[SlotOf(ctx, l, pos) := StoredRow(m, int8, KeyOf(m, l, x[..], pos))]
      ensures vals.Rows() == old(vals.Rows())[SlotOf(ctx, l, pos) := StoredRow(m, int8, ValueOf(m, l, x[..]))]
    {
      hide QueryOf, KeyOf, ValueOf, StoredRow, HeadsOf, ValidModel, ValidConfig, RowCache.Valid, RowCache.RowAt, RowCache.Rows, SlotOf;
      ghost var x0 := x[..];
      ProjectInto(m, l, pos, x, xb, xqQ, xqS, q, k, v);
      RowSizes(m, keys, k[..]);
      RowSizes(m, vals, v[..]);
      keys.Put(SlotOf(ctx, l, pos), k);
      vals.Put(SlotOf(ctx, l, pos), v);
      StoredRowIs(m, int8, KeyOf(m, l, x0, pos));
      StoredRowIs(m, int8, ValueOf(m, l, x0));
    }

    /** Attention over the cached positions, projected and added to the stream. */
    method Mix(m: Model, l: nat, pos: nat, ghost x0: seq<real>, ghost ks: seq<Row>, ghost vs: seq<Row>)
      requires Valid() && ValidModel(m) && m.c == c && l < c.nLayers && pos < ctx
      requires x[..] == x0 && q[..] == QueryOf(m, l, x0, pos) && |ks| == |vs| == pos + 1
      requires AreRows(HeadsOf(c), ks) && AreRows(HeadsOf(c), vs)
      requires Part(keys.Rows(), c.nLayers, ctx, l, pos + 1) == ks && Part(vals.Rows(), c.nLayers, ctx, l, pos + 1) == vs
      modifies att, xb, x, xb2, xqQ, xqS
      ensures x[..] == Attend(m, l, x0, ks, vs, pos)
    {
      hide QueryOf, Attend, OutOf, Attended, HeadsOf, ValidModel, ValidConfig, RowCache.Valid, RowCache.RowAt, RowCache.Rows, Part, RowsFrom, AreRows;
      PartOfCache(keys, c.nLayers, ctx, l, pos + 1);
      PartOfCache(vals, c.nLayers, ctx, l, pos + 1);
      HeadSizes(c);
      AttendIs(m, l, x0, ks, vs, pos);
      AttendAll(m.lm, HeadsOf(c), q, keys, vals, SlotOf(ctx, l, 0), pos + 1, att, ctx, xb);
      ProjectOut(m, l, x, xb, xb2, xqQ, xqS);
    }

    /** One layer of a step at position `pos`. */
    method Layer(m: Model, l: nat, pos: nat, ghost toks: seq<nat>)
      requires Valid() && ValidModel(m) && m.c == c && l < c.nLayers && ValidTokens(m, toks) && pos < |toks| && pos < ctx
      requires x[..] == Stream(m, int8, toks, l, pos)
      requires CachedTo(m, int8, toks, ctx, keys.Rows(), vals.Rows(), pos, l)
      modifies x, xb, xb2, hb, hb2, xqQ, xqS, hqQ, hqS, q, k, v, att, keys.exact, keys.q, keys.s, vals.exact, vals.q, vals.s
      ensures x[..] == Stream(m, int8, toks, l + 1, pos)
      ensures CachedTo(m, int8, toks, ctx, keys.Rows(), vals.Rows(), pos, l + 1)
      ensures SlotOf(ctx, l, pos) < keys.slots
      ensures keys.Rows() == old(keys.Rows())[SlotOf(ctx, l, pos) := keys.Rows()[SlotOf(ctx, l, pos)]]
      ensures vals.Rows() == old(vals.Rows())[SlotOf(ctx, l, pos) := vals.Rows()[SlotOf(ctx, l, pos)]]
    {
      hide QueryOf, KeyOf, ValueOf, StoredRow, HeadsOf, ValidModel, ValidConfig, ValidTokens, CachedTo, LayerCached,
        RowCache.Valid, RowCache.RowAt, RowCache.Rows, SlotOf, Part, AreRows, Stream, KeyRows, ValRows, Attend, FeedForward;
      ghost var x0, ks, vs := x[..], KeyRows(m, int8, toks, l, pos + 1), ValRows(m, int8, toks, l, pos + 1);
      StoreLayer(m, int8, toks, ctx, keys.Rows(), vals.Rows(), pos, l);
      Project(m, l, pos);
      LayerHolds(m, int8, toks, ctx, keys.Rows(), vals.Rows(), pos, l);
      Mix(m, l, pos, x0, ks, vs);
      FeedInto(m, l, x, xb, xqQ, xqS, hb, hb2, hqQ, hqS);
      StreamNext(m, int8, toks, l, pos);
    }

    /**
     One decode step. Whatever the scratch buffers and the later rows of the cache held, the logits are
     those of the tokens so far recomputed without a cache, and only rows of this position change.
     */
    method Forward(m: Model, token: nat, pos: nat, ghost toks: seq<nat>)
      requires Valid() && ValidModel(m) && m.c == c && pos < ctx
      requires ValidTokens(m, toks) && pos < |toks| && toks[pos] == token
      requires Cached(m, int8, toks, ctx, keys.Rows(), vals.Rows(), pos)
      modifies x, xb, xb2, hb, hb2, xqQ, xqS, hqQ, hqS, q, k, v, att, logits,
        keys.exact, keys.q, keys.s, vals.exact, vals.q, vals.s
      ensures logits[..] == Logits(m, int8, toks, pos)
      ensures Cached(m, int8, toks, ctx, keys.Rows(), vals.Rows(), pos + 1)
      ensures OnlyPosition(old(keys.Rows()), keys.Rows(), ctx, pos)
      ensures OnlyPosition(old(vals.Rows()), vals.Rows(), ctx, pos)
    {
      hide HeadsOf, ValidModel, ValidConfig, ValidTokens, CachedTo, Cached, RowCache.Valid, RowCache.RowAt, RowCache.Rows,
        SlotOf, Stream, Classify, Embedded, Sized, Apart, Clear;
      ghost var k0, v0 := keys.Rows(), vals.Rows();
      StepStarts(m, int8, toks, ctx, k0, v0, pos);
      EmbedStep(m, token, pos, toks);
      var l := 0;
      while l < c.nLayers
        invariant 0 <= l <= c.nLayers
        invariant x[..] == Stream(m, int8, toks, l, pos)
        invariant CachedTo(m, int8, toks, ctx, keys.Rows(), vals.Rows(), pos, l)
        invariant OnlyPosition(k0, keys.Rows(), ctx, pos) && OnlyPosition(v0, vals.Rows(), ctx, pos)
      {
        ghost var k1, v1 := keys.Rows(), vals.Rows();
        Layer(m, l, pos, toks);
        PutOnly(k0, k1, ctx, l, pos, keys.Rows()[SlotOf(ctx, l, pos)]);
        PutOnly(v0, v1, ctx, l, pos, vals.Rows()[SlotOf(ctx, l, pos)]);
        l := l + 1;
      }
      StepEnds(m, int8, toks, ctx, keys.Rows(), vals.Rows(), pos);
      ClassifyStep(m);
    }

    method EmbedStep(m: Model, token: nat, pos: nat, ghost toks: seq<nat>)
      requires Valid() && ValidModel(m) && m.c == c
      requires ValidTokens(m, toks) && pos < |toks| && toks[pos] == token
      modifies x
      ensures x[..] == Stream(m, int8, toks, 0, pos)
      ensures keys.Rows() == old(keys.Rows()) && vals.Rows() == old(vals.Rows())
    {
      hide ValidModel, ValidConfig, RowCache.Valid, RowCache.RowAt, RowCache.Rows, Embedded;
      EmbedInto(m, token, x);
    }

    method ClassifyStep(m: Model)
      requires Valid() && ValidModel(m) && m.c == c
      modifies x, xb, xqQ, xqS, logits
      ensures logits[..] == Classify(m, old(x[..]))
      ensures keys.Rows() == old(keys.Rows()) && vals.Rows() == old(vals.Rows())
    {
      hide ValidModel, ValidConfig, RowCache.Valid, RowCache.RowAt, RowCache.Rows, Classify;
      ClassifyInto(m, x, xb, xqQ, xqS, logits);
    }
  }

  // ---- whole runs ----------------------------------------------------------------------------

  /** Decode a whole run with a state that may hold anything. */
  method Decode(m: Model, s: RunState, toks: seq<nat>)
    requires s.Valid() && ValidModel(m) && m.c == s.c && ValidTokens(m, toks) && 0 < |toks| <= s.ctx
    modifies s.Reals(), s.Ints()
    ensures s.logits[..] == Logits(m, s.int8, toks, |toks| - 1)
    ensures Cached(m, s.int8, toks, s.ctx, s.keys.Rows(), s.vals.Rows(), |toks|)
  {
    hide Cached, RowCache.Rows, Logits, RunState.Sized, RunState.Apart, RunState.Clear, ValidModel, OnlyPosition;
    var pos := 0;
    NothingCached(m, s.int8, toks, s.ctx, s.keys.Rows(), s.vals.Rows());
    while pos < |toks|
      invariant 0 <= pos <= |toks|
      invariant Cached(m, s.int8, toks, s.ctx, s.keys.Rows(), s.vals.Rows(), pos)
      invariant pos > 0 ==> s.logits[..] == Logits(m, s.int8, toks, pos - 1)
    {
      s.Forward(m, toks[pos], pos, toks);
      pos := pos + 1;
    }
  }

  /** With nothing decoded yet, any cache will do. */
  lemma NothingCached(m: Model, int8: bool, toks: seq<nat>, ctx: nat, ks: seq<Row>, vs: seq<Row>)
    requires ValidModel(m) && ValidTokens(m, toks) && |ks| == |vs| == m.c.nLayers * ctx
    ensures Cached(m, int8, toks, ctx, ks, vs, 0)
  {
    hide ValidModel, ValidTokens;
  }
}
