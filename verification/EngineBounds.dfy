/** Where the loops of a decoding step read and write, and exactly when they stay inside their buffers. */
module EngineBounds {
  import opened QMath
  import opened Reference
  import opened Checkpoint
  import opened CheckpointLaws

  // ---- quantised products --------------------------------------------------------------------

  /** The quantising loop rounds the number of groups down, so it never runs past its vector. */
  lemma QuantizeStaysInside(n: nat, gs: nat, g: nat, k: nat)
    requires gs > 0 && g < n / gs && k < gs
    ensures g * gs + k < n
  {
    MulMonotone(g + 1, n / gs, gs);
    assert (g + 1) * gs == g * gs + gs;
    assert n == n / gs * gs + n % gs;
  }

  /**
   What the product loop reads at row `i`, group start `j` and element `k`: a value and a scale of a vector of
   `n`, a value and a scale of a matrix of `d` rows.
   */
  predicate ReadsInside(d: nat, n: nat, gs: nat, i: nat, j: nat, k: nat)
    requires gs > 0
  {
    && j + k < n && j / gs < n / gs
    && i * n + j + k < d * n && (i * n + j) / gs < d * n / gs
  }

  /** Group starts go up in steps of `gs` while they are below `n`. */
  ghost predicate ProductInBounds(d: nat, n: nat, gs: nat)
    requires gs > 0
  {
    forall i: nat, j: nat, k: nat | i < d && j < n && j % gs == 0 && k < gs :: ReadsInside(d, n, gs, i, j, k)
  }

  /** The last group runs past the vector exactly when the group size does not divide it. */
  lemma ProductExactly(d: nat, n: nat, gs: nat)
    requires d > 0 && gs > 0
    ensures ProductInBounds(d, n, gs) <==> Groups(n, gs)
  {
    if Groups(n, gs) {
      forall i: nat, j: nat, k: nat | i < d && j < n && j % gs == 0 && k < gs ensures ReadsInside(d, n, gs, i, j, k) {
        WholeGroupsInside(d, n, gs, i, j, k);
      }
    } else {
      var j := n / gs * gs;
      assert n == j + n % gs;
      GroupIndex(gs, n / gs, 0);
      assert !ReadsInside(d, n, gs, 0, j, gs - 1);
    }
  }

  lemma WholeGroupsInside(d: nat, n: nat, gs: nat, i: nat, j: nat, k: nat)
    requires Groups(n, gs) && i < d && j < n && j % gs == 0 && k < gs
    ensures ReadsInside(d, n, gs, i, j, k)
  {
    var m, g := n / gs, j / gs;
    assert n == m * gs && j == g * gs;
    DivBelow(j, gs, m);
    GroupFits(n, gs, g);
    RowBound(d, n, i);
    ScaleInside(d, m, gs, i, g);
    assert i * n == i * (m * gs) && d * n == d * (m * gs);
  }

  /** The scale of group `g` of row `i`. */
  lemma ScaleInside(d: nat, m: nat, gs: nat, i: nat, g: nat)
    requires gs > 0 && i < d && g < m
    ensures (i * (m * gs) + g * gs) / gs < d * (m * gs) / gs
  {
    RowBound(d, m, i);
    assert i * (m * gs) + g * gs == (i * m + g) * gs;
    assert d * (m * gs) == (d * m) * gs;
    GroupIndex(gs, i * m + g, 0);
    GroupIndex(gs, d * m, 0);
  }

  lemma DivBelow(a: nat, b: nat, q: nat)
    requires b > 0 && a < q * b
    ensures a / b < q
  {
    assert a == a / b * b + a % b;
    if a / b >= q { MulMonotone(q, a / b, b); }
  }

  // ---- rotary pairs --------------------------------------------------------------------------

  /** A pair of the query, and of the key while there is key left. */
  predicate PairInside(dim: nat, kv: nat, i: nat) { i + 1 < dim && (i < kv ==> i + 1 < kv) }

  ghost predicate RotaryInBounds(dim: nat, kv: nat) { forall i: nat | i < dim && i % 2 == 0 :: PairInside(dim, kv, i) }

  /** Pairs stay inside exactly when both widths are even; a key wider than the query may be odd. */
  lemma RotaryExactly(dim: nat, kv: nat)
    ensures RotaryInBounds(dim, kv) <==> dim % 2 == 0 && (kv <= dim ==> kv % 2 == 0)
  {
    if dim % 2 != 0 {
      assert !PairInside(dim, kv, dim - 1);
    } else if kv <= dim && kv % 2 != 0 {
      assert !PairInside(dim, kv, kv - 1);
    }
  }

  // ---- heads ---------------------------------------------------------------------------------

  /** Query head `h` stays in the query, and its key head in the key of the position, and in its scales. */
  predicate HeadInside(c: Config, h: nat, j: nat)
    requires c.nHeads > 0 && c.nKvHeads > 0 && KvMul(c) > 0
  {
    && h * HeadSize(c) + j < c.dim
    && h / KvMul(c) < c.nKvHeads && h / KvMul(c) * HeadSize(c) + j < KvDim(c)
  }

  /** Finding the key head divides by the heads that share one. */
  ghost predicate AttentionInBounds(c: Config)
    requires c.nHeads > 0 && c.nKvHeads > 0
  {
    KvMul(c) > 0 && forall h: nat, j: nat | h < c.nHeads && j < HeadSize(c) :: HeadInside(c, h, j)
  }

  /** Every key head exists exactly when they are shared evenly. */
  lemma AttentionExactly(c: Config)
    requires c.dim > 0 && c.nHeads > 0 && c.nKvHeads > 0 && c.dim % c.nHeads == 0
    ensures AttentionInBounds(c) <==> c.nHeads % c.nKvHeads == 0
  {
    var mul, hs := KvMul(c), HeadSize(c);
    assert c.dim == c.nHeads * hs;
    assert hs > 0 by { Positive(c.nHeads, hs); }
    assert c.nHeads == c.nKvHeads * mul + c.nHeads % c.nKvHeads;
    if c.nHeads % c.nKvHeads == 0 {
      Positive(c.nKvHeads, mul);
      KvWidth(c);
      forall h: nat, j: nat | h < c.nHeads && j < hs ensures HeadInside(c, h, j) { EvenHeadInside(c, h, j); }
    } else if mul > 0 {
      var h := c.nHeads - 1;
      assert h / mul >= c.nKvHeads by { DivAtLeast(h, mul, c.nKvHeads); }
      assert !HeadInside(c, h, 0);
    }
  }

  lemma DivAtLeast(a: nat, b: nat, q: nat)
    requires b > 0 && a >= q * b
    ensures a / b >= q
  {
    assert a == a / b * b + a % b;
    assert (a / b + 1) * b == a / b * b + b;
    if a / b < q { MulMonotone(a / b + 1, q, b); }
  }

  lemma KvWidth(c: Config)
    requires c.nHeads > 0 && c.dim % c.nHeads == 0
    ensures KvDim(c) == c.nKvHeads * HeadSize(c)
  {
    var hs := HeadSize(c);
    assert c.dim == c.nHeads * hs;
    assert c.dim * c.nKvHeads == (c.nKvHeads * hs) * c.nHeads by {
      assert c.nHeads * hs * c.nKvHeads == (c.nKvHeads * hs) * c.nHeads;
    }
    GroupIndex(c.nHeads, c.nKvHeads * hs, 0);
  }

  lemma EvenHeadInside(c: Config, h: nat, j: nat)
    requires c.nHeads > 0 && c.nKvHeads > 0 && KvMul(c) > 0 && h < c.nHeads && j < HeadSize(c)
    requires c.nHeads == c.nKvHeads * KvMul(c) && c.dim == c.nHeads * HeadSize(c) && KvDim(c) == c.nKvHeads * HeadSize(c)
    ensures HeadInside(c, h, j)
  {
    var mul := KvMul(c);
    HeadFits(c.nHeads, HeadSize(c), h, j);
    DivBelow(h, mul, c.nKvHeads);
    HeadFits(c.nKvHeads, HeadSize(c), h / mul, j);
  }

  // ---- the whole step ------------------------------------------------------------------------

  /** Products and rotation stay inside their buffers, and every head inside the row of its position. */
  ghost predicate StepInBounds(c: Config)
    requires c.nHeads > 0 && c.nKvHeads > 0 && c.gs > 0
  {
    && ProductInBounds(c.dim, c.dim, c.gs) && ProductInBounds(KvDim(c), c.dim, c.gs)
    && ProductInBounds(c.hidden, c.dim, c.gs) && ProductInBounds(c.dim, c.hidden, c.gs)
    && ProductInBounds(c.vocab, c.dim, c.gs)
    && RotaryInBounds(c.dim, KvDim(c)) && AttentionInBounds(c)
  }

  lemma AcceptedShapes(h: Header)
    requires Accepted(h)
    ensures h.c.nHeads > 0 && h.c.nKvHeads > 0 && h.c.gs > 0 && KvDim(h.c) > 0
  {
    Positive(h.c.dim, KvDim(h.c));
  }

  /** The products of an accepted header stay inside exactly when both vector widths are whole groups. */
  lemma ProductsExactly(h: Header)
    requires Accepted(h)
    ensures h.c.nHeads > 0 && h.c.gs > 0
    ensures (&& ProductInBounds(h.c.dim, h.c.dim, h.c.gs) && ProductInBounds(KvDim(h.c), h.c.dim, h.c.gs)
             && ProductInBounds(h.c.hidden, h.c.dim, h.c.gs) && ProductInBounds(h.c.dim, h.c.hidden, h.c.gs)
             && ProductInBounds(h.c.vocab, h.c.dim, h.c.gs))
            <==> Groups(h.c.dim, h.c.gs) && Groups(h.c.hidden, h.c.gs)
  {
    hide ProductInBounds, WholeGroups, KvDim;
    var c := h.c;
    AcceptedShapes(h);
    ProductExactly(c.dim, c.dim, c.gs);
    ProductExactly(KvDim(c), c.dim, c.gs);
    ProductExactly(c.hidden, c.dim, c.gs);
    ProductExactly(c.dim, c.hidden, c.gs);
    ProductExactly(c.vocab, c.dim, c.gs);
  }

  /** A header the parser accepts can be run exactly when its configuration is valid. */
  lemma EngineNeedsExactly(h: Header)
    requires Accepted(h)
    ensures h.c.nHeads > 0 && h.c.nKvHeads > 0 && h.c.gs > 0
    ensures StepInBounds(h.c) <==> ValidConfig(h.c)
  {
    hide ProductInBounds, RotaryInBounds, AttentionInBounds, WholeGroups, KvDim, Groups;
    var c := h.c;
    AcceptedShapes(h);
    ProductsExactly(h);
    RotaryExactly(c.dim, KvDim(c));
    AttentionExactly(c);
    if c.nHeads % c.nKvHeads == 0 { KeysFit(c); }
  }

  lemma KeysFit(c: Config)
    requires c.nHeads > 0 && c.nKvHeads > 0 && c.dim % c.nHeads == 0 && c.nHeads % c.nKvHeads == 0
    ensures KvDim(c) <= c.dim
  {
    KvWidth(c);
    assert c.nKvHeads <= c.nHeads;
    assert c.dim == c.nHeads * HeadSize(c);
    MulMonotone(c.nKvHeads, c.nHeads, HeadSize(c));
  }

  /** Headers that parse and cannot be run: a vector cut inside a group, an odd width, key heads shared unevenly. */
  lemma AcceptedIsNotEnough()
    ensures exists h: Header :: Accepted(h) && Fits(h) && !ProductInBounds(h.c.dim, h.c.dim, h.c.gs) && !StepInBounds(h.c)
    ensures exists h: Header :: Accepted(h) && Fits(h) && !RotaryInBounds(h.c.dim, KvDim(h.c)) && !StepInBounds(h.c)
    ensures exists h: Header :: Accepted(h) && Fits(h) && !AttentionInBounds(h.c) && !StepInBounds(h.c)
  {
    hide ProductInBounds, RotaryInBounds, AttentionInBounds;
    var cut := Header(Config(2, 2, 1, 1, 1, 2, 4), 1, true);
    assert KvDim(cut.c) == 2;
    ProductExactly(2, 2, 4);
    assert Accepted(cut) && Fits(cut) && !ProductInBounds(cut.c.dim, cut.c.dim, cut.c.gs);
    var odd := Header(Config(1, 1, 1, 1, 1, 1, 1), 1, true);
    assert KvDim(odd.c) == 1;
    RotaryExactly(1, 1);
    assert Accepted(odd) && Fits(odd) && !RotaryInBounds(odd.c.dim, KvDim(odd.c));
    var uneven := Header(Config(4, 2, 1, 2, 4, 2, 2), 1, true);
    assert KvDim(uneven.c) == 8;
    AttentionExactly(uneven.c);
    assert Accepted(uneven) && Fits(uneven) && !AttentionInBounds(uneven.c);
  }
}
