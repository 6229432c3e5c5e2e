/** Multi-head attention over the rows of the cache, in place. */
module MultiHead {
  import opened QMath
  import opened Kernels
  import opened Reference
  import opened Cache

  /** A cache laid out for these heads. */
  ghost predicate Fits(cache: RowCache, a: Heads) {
    ValidHeads(a) && cache.Valid() && cache.heads == a.kv && cache.hs == a.hs
  }

  /** The rows of `n` consecutive slots. */
  ghost function RowsFrom(cache: RowCache, base: nat, n: nat): (rows: seq<Row>)
    requires cache.Valid() && base + n <= cache.slots
    reads cache.exact, cache.q, cache.s
    ensures |rows| == n && forall t | 0 <= t < n :: rows[t] == cache.RowAt(base + t)
  {
    if n == 0 then [] else RowsFrom(cache, base, n - 1) + [cache.RowAt(base + n - 1)]
  }

  lemma DotNext(a: Heads, q: seq<real>, row: Row, h: nat, j: nat)
    requires ValidHeads(a) && |q| == a.n * a.hs && IsRow(row, a.kv, a.hs) && h < a.n && j < a.hs
    ensures h * a.hs + j < |q|
    ensures DotHead(a, q, row, h, j + 1) ==
            DotHead(a, q, row, h, j) + q[h * a.hs + j] * Elem(row, a.kv, a.hs, KvHead(a, h), j)
  {
    hide Elem, KvHead, IsRow;
    HeadFits(a.n, a.hs, h, j);
  }

  method DotRow(a: Heads, q: array<real>, cache: RowCache, r: nat, h: nat) returns (score: real)
    requires Fits(cache, a) && q.Length == a.n * a.hs && r < cache.slots && h < a.n
    ensures score == DotHead(a, q[..], cache.RowAt(r), h, a.hs)
  {
    hide Elem, KvHead, IsRow, ValidHeads, DotHead, RowCache.Valid, RowCache.RowAt;
    ghost var row := cache.RowAt(r);
    var kv := KvHead(a, h);
    score := 0.0;
    assert DotHead(a, q[..], row, h, 0) == 0.0 by { DotNone(a, q[..], row, h); }
    var j := 0;
    while j < a.hs
      invariant 0 <= j <= a.hs
      invariant score == DotHead(a, q[..], row, h, j)
    {
      DotNext(a, q[..], row, h, j);
      var x := cache.Get(r, kv, j);
      score := score + q[h * a.hs + j] * x;
      j := j + 1;
    }
  }

  lemma DotNone(a: Heads, q: seq<real>, row: Row, h: nat)
    requires ValidHeads(a) && |q| == a.n * a.hs && IsRow(row, a.kv, a.hs) && h < a.n
    ensures DotHead(a, q, row, h, 0) == 0.0
  {
  }

  ghost function Scores(lm: Libm, a: Heads, q: seq<real>, keys: seq<Row>, h: nat): (w: seq<real>)
    requires ValidHeads(a) && |q| == a.n * a.hs && AreRows(a, keys) && h < a.n
    ensures |w| == |keys|
  {
    seq(|keys|, t requires 0 <= t < |keys| => Score(lm, a, q, keys[t], h))
  }

  method ScoreHead(lm: Libm, a: Heads, q: array<real>, cache: RowCache, base: nat, n: nat, att: array<real>, ao: nat, h: nat)
    requires Fits(cache, a) && q.Length == a.n * a.hs && base + n <= cache.slots && h < a.n
    requires ao + n <= att.Length && att != q && att != cache.exact && att != cache.s
    requires AreRows(a, RowsFrom(cache, base, n))
    modifies att
    ensures Slice(att[..], ao, n) == Scores(lm, a, q[..], RowsFrom(cache, base, n), h)
    ensures forall i | 0 <= i < att.Length && !(ao <= i < ao + n) :: att[i] == old(att[i])
  {
    hide DotHead, AreRows, ValidHeads, RowCache.Valid, RowCache.RowAt, RowsFrom, IsRow;
    ghost var keys := RowsFrom(cache, base, n);
    ghost var want := Scores(lm, a, q[..], keys, h);
    var scale := lm.rsqrt(a.hs as real);
    var t := 0;
    while t < n
      invariant 0 <= t <= n
      invariant forall i {:trigger att[i]} | ao <= i < ao + t :: att[i] == want[i - ao]
      invariant forall i | 0 <= i < att.Length && !(ao <= i < ao + n) :: att[i] == old(att[i])
    {
      var score := DotRow(a, q, cache, base + t, h);
      assert keys[t] == cache.RowAt(base + t);
      assert want[t] == score * scale;
      att[ao + t] := score * scale;
      t := t + 1;
    }
    assert Slice(att[..], ao, n) == want;
  }

  method AddRow(a: Heads, w: real, cache: RowCache, r: nat, h: nat, xb: array<real>)
    requires Fits(cache, a) && r < cache.slots && h < a.n && xb.Length == a.n * a.hs
    requires xb != cache.exact && xb != cache.s && h * a.hs + a.hs <= xb.Length
    modifies xb
    ensures forall j {:trigger xb[j]} | h * a.hs <= j < h * a.hs + a.hs ::
              xb[j] == old(xb[j]) + w * Elem(cache.RowAt(r), a.kv, a.hs, KvHead(a, h), j - h * a.hs)
    ensures forall i | 0 <= i < xb.Length && !(h * a.hs <= i < h * a.hs + a.hs) :: xb[i] == old(xb[i])
  {
    hide Elem, KvHead, IsRow, ValidHeads, RowCache.Valid, RowCache.RowAt;
    var kv, xo := KvHead(a, h), h * a.hs;
    ghost var row := cache.RowAt(r);
    var j := 0;
    while j < a.hs
      invariant 0 <= j <= a.hs
      invariant forall i {:trigger xb[i]} | xo <= i < xo + j :: xb[i] == old(xb[i]) + w * Elem(row, a.kv, a.hs, kv, i - xo)
      invariant forall i | 0 <= i < xb.Length && !(xo <= i < xo + j) :: xb[i] == old(xb[i])
    {
      var x := cache.Get(r, kv, j);
      xb[xo + j] := xb[xo + j] + w * x;
      j := j + 1;
    }
  }

  method ClearHead(a: Heads, h: nat, xb: array<real>)
    requires h * a.hs + a.hs <= xb.Length
    modifies xb
    ensures forall i {:trigger xb[i]} | h * a.hs <= i < h * a.hs + a.hs :: xb[i] == 0.0
    ensures forall i | 0 <= i < xb.Length && !(h * a.hs <= i < h * a.hs + a.hs) :: xb[i] == old(xb[i])
  {
    var xo, j := h * a.hs, 0;
    while j < a.hs
      invariant 0 <= j <= a.hs
      invariant forall i {:trigger xb[i]} | xo <= i < xo + j :: xb[i] == 0.0
      invariant forall i | 0 <= i < xb.Length && !(xo <= i < xo + a.hs) :: xb[i] == old(xb[i])
    {
      xb[xo + j] := 0.0;
      j := j + 1;
    }
  }

  /** Mix the value rows into the output of one head. */
  method MixHead(a: Heads, att: array<real>, ao: nat, cache: RowCache, base: nat, n: nat, h: nat, xb: array<real>)
    requires Fits(cache, a) && base + n <= cache.slots && h < a.n && xb.Length == a.n * a.hs
    requires ao + n <= att.Length && xb != att && xb != cache.exact && xb != cache.s
    requires h * a.hs + a.hs <= xb.Length && AreRows(a, RowsFrom(cache, base, n))
    modifies xb
    ensures forall j {:trigger xb[j]} | h * a.hs <= j < h * a.hs + a.hs ::
              xb[j] == Mixed(a, Slice(att[..], ao, n), RowsFrom(cache, base, n), h, j - h * a.hs, n)
    ensures forall i | 0 <= i < xb.Length && !(h * a.hs <= i < h * a.hs + a.hs) :: xb[i] == old(xb[i])
  {
    hide Elem, KvHead, IsRow, AreRows, ValidHeads, RowCache.Valid, RowCache.RowAt, RowsFrom;
    ghost var w, vals := Slice(att[..], ao, n), RowsFrom(cache, base, n);
    var xo := h * a.hs;
    ClearHead(a, h, xb);
    var t := 0;
    while t < n
      invariant 0 <= t <= n
      invariant forall j {:trigger xb[j]} | xo <= j < xo + a.hs :: xb[j] == Mixed(a, w, vals, h, j - xo, t)
      invariant forall i | 0 <= i < xb.Length && !(xo <= i < xo + a.hs) :: xb[i] == old(xb[i])
    {
      assert vals[t] == cache.RowAt(base + t) && w[t] == att[ao + t];
      AddRow(a, att[ao + t], cache, base + t, h, xb);
      t := t + 1;
    }
  }

  /** One head: scores against the cached keys, softmax, and the mix of the cached values. */
  method AttendHead(lm: Libm, a: Heads, q: array<real>, keys: RowCache, vals: RowCache, base: nat, n: nat,
                    att: array<real>, ao: nat, h: nat, xb: array<real>)
    requires Fits(keys, a) && Fits(vals, a) && q.Length == xb.Length == a.n * a.hs && h < a.n && n > 0
    requires base + n <= keys.slots && base + n <= vals.slots && ao + n <= att.Length
    requires att != q && xb != q && xb != att
    requires att != keys.exact && att != keys.s && att != vals.exact && att != vals.s
    requires xb != keys.exact && xb != keys.s && xb != vals.exact && xb != vals.s
    requires AreRows(a, RowsFrom(keys, base, n)) && AreRows(a, RowsFrom(vals, base, n))
    requires h * a.hs + a.hs <= xb.Length
    modifies att, xb
    ensures forall j {:trigger xb[j]} | h * a.hs <= j < h * a.hs + a.hs ::
              xb[j] == Mixed(a, Attention(lm, a, q[..], RowsFrom(keys, base, n), h), RowsFrom(vals, base, n), h, j - h * a.hs, n)
    ensures forall i | 0 <= i < xb.Length && !(h * a.hs <= i < h * a.hs + a.hs) :: xb[i] == old(xb[i])
  {
    hide AreRows, ValidHeads, RowCache.Valid, RowCache.RowAt, RowsFrom, IsRow, Softmax, Mixed;
    ScoreHead(lm, a, q, keys, base, n, att, ao, h);
    SoftmaxInPlace(lm, att, ao, n);
    MixHead(a, att, ao, vals, base, n, h, xb);
  }

  lemma InHead(hs: nat, h: nat, i: nat)
    requires h * hs <= i < h * hs + hs
    ensures i / hs == h && i % hs == i - h * hs
  {
    GroupIndex(hs, h, i - h * hs);
  }

  /** The heads below `h` are done. */
  ghost predicate HeadsDone(lm: Libm, a: Heads, q: seq<real>, keys: seq<Row>, vals: seq<Row>, xb: seq<real>, h: nat) {
    && ValidHeads(a) && |q| == |xb| == a.n * a.hs && AreRows(a, keys) && AreRows(a, vals)
    && |keys| == |vals| > 0 && h <= a.n
    && forall i | 0 <= i < |xb| && i < h * a.hs :: xb[i] == AttendedAt(lm, a, q, keys, vals, i)
  }

  lemma NextHead(lm: Libm, a: Heads, q: seq<real>, keys: seq<Row>, vals: seq<Row>, was: seq<real>, now: seq<real>, h: nat)
    requires HeadsDone(lm, a, q, keys, vals, was, h) && h < a.n && |now| == |was|
    requires forall j {:trigger now[j]} | 0 <= j < |now| && h * a.hs <= j < h * a.hs + a.hs ::
               now[j] == Mixed(a, Attention(lm, a, q, keys, h), vals, h, j - h * a.hs, |vals|)
    requires forall i | 0 <= i < |now| && !(h * a.hs <= i < h * a.hs + a.hs) :: now[i] == was[i]
    ensures HeadsDone(lm, a, q, keys, vals, now, h + 1)
  {
    hide Attention, Mixed, AreRows;
    assert (h + 1) * a.hs == h * a.hs + a.hs;
    forall i | 0 <= i < |now| && i < (h + 1) * a.hs ensures now[i] == AttendedAt(lm, a, q, keys, vals, i) {
      if i >= h * a.hs { InHead(a.hs, h, i); }
    }
  }

  lemma AllHeads(lm: Libm, a: Heads, q: seq<real>, keys: seq<Row>, vals: seq<Row>, xb: seq<real>)
    requires HeadsDone(lm, a, q, keys, vals, xb, a.n)
    ensures xb == Attended(lm, a, q, keys, vals)
  {
    hide AttendedAt;
  }

  lemma NoHeads(lm: Libm, a: Heads, q: seq<real>, keys: seq<Row>, vals: seq<Row>, xb: seq<real>)
    requires ValidHeads(a) && |q| == |xb| == a.n * a.hs && AreRows(a, keys) && AreRows(a, vals) && |keys| == |vals| > 0
    ensures HeadsDone(lm, a, q, keys, vals, xb, 0)
  {
  }

  /** Every head in turn. Neither what the scratch held before nor later rows of the cache matter. */
  method AttendAll(lm: Libm, a: Heads, q: array<real>, keys: RowCache, vals: RowCache, base: nat, n: nat,
                   att: array<real>, ctx: nat, xb: array<real>)
    requires Fits(keys, a) && Fits(vals, a) && q.Length == xb.Length == a.n * a.hs && 0 < n <= ctx
    requires base + n <= keys.slots && base + n <= vals.slots && att.Length == a.n * ctx
    requires att != q && xb != q && xb != att
    requires att != keys.exact && att != keys.s && att != vals.exact && att != vals.s
    requires xb != keys.exact && xb != keys.s && xb != vals.exact && xb != vals.s
    requires AreRows(a, RowsFrom(keys, base, n)) && AreRows(a, RowsFrom(vals, base, n))
    modifies att, xb
    ensures xb[..] == Attended(lm, a, q[..], RowsFrom(keys, base, n), RowsFrom(vals, base, n))
  {
    hide HeadsDone, AreRows, ValidHeads, RowCache.Valid, RowCache.RowAt, RowsFrom, IsRow, Attention, Mixed, Attended;
    ghost var ks, vs := RowsFrom(keys, base, n), RowsFrom(vals, base, n);
    NoHeads(lm, a, q[..], ks, vs, xb[..]);
    var h := 0;
    while h < a.n
      invariant 0 <= h <= a.n && HeadsDone(lm, a, q[..], ks, vs, xb[..], h)
    {
      ghost var was := xb[..];
      MulMonotone(h + 1, a.n, ctx);
      MulMonotone(h + 1, a.n, a.hs);
      AttendHead(lm, a, q, keys, vals, base, n, att, h * ctx, h, xb);
      NextHead(lm, a, q[..], ks, vs, was, xb[..], h);
      h := h + 1;
    }
    AllHeads(lm, a, q[..], ks, vs, xb[..]);
  }
}
