/** From checkpoint bytes to the model the decoding step runs on. */
module LoadedModel {
  import opened Bytes
  import opened QMath
  import opened Kernels
  import opened Reference
  import opened Checkpoint
  import opened CheckpointWriter
  import opened CheckpointLaws
  import opened CheckpointModel

  // ---- reading every tensor ------------------------------------------------------------------

  /** Quantised group `i` of a view; a shared classifier is the token table again. */
  function GroupIn(v: View, i: nat): QGroup {
    if i == 0 then v.tokens else if i == 1 then v.wq else if i == 2 then v.wk else if i == 3 then v.wv
    else if i == 4 then v.wo else if i == 5 then v.w1 else if i == 6 then v.w2 else if i == 7 then v.w3 else v.wcls
  }

  /** A group of the size the header asks for lies in the buffer. */
  predicate Holds(buf: seq<Byte>, h: Header, i: nat, g: QGroup)
    requires h.c.nHeads > 0
  {
    g.gs == h.c.gs && g.gs > 0 && g.count == CountOf(h, i) && g.each == EachOf(h, i) && g.base + Total(g) <= |buf|
  }

  /** Every tensor and every norm weight lies in the buffer. */
  predicate Inside(buf: seq<Byte>, v: View) {
    && v.h.c.nHeads > 0
    && v.rmsAtt + v.h.c.nLayers * v.h.c.dim * 4 <= |buf| && v.rmsFfn + v.h.c.nLayers * v.h.c.dim * 4 <= |buf|
    && v.rmsFinal + v.h.c.dim * 4 <= |buf|
    && forall i | 0 <= i < 9 :: Holds(buf, v.h, i, GroupIn(v, i))
  }

  /** Tensor `l` of group `i`. */
  function GroupMatrix(k: Codec, buf: seq<Byte>, v: View, i: nat, l: nat): Quant
    requires Inside(buf, v) && i < 9 && l < CountOf(v.h, i)
  {
    assert Holds(buf, v.h, i, GroupIn(v, i));
    MatrixAt(k, buf, GroupIn(v, i), l)
  }

  lemma NormFits(layers: nat, dim: nat, l: nat)
    requires l < layers
    ensures l * dim * 4 + dim * 4 <= layers * dim * 4
  {
    RowBound(layers, dim, l);
  }

  /** The norm weights of layer `l`, from a table of them at `off`. */
  function NormAt(k: Codec, buf: seq<Byte>, c: Config, off: nat, l: nat): (xs: seq<real>)
    requires off + c.nLayers * c.dim * 4 <= |buf| && l < c.nLayers
    ensures |xs| == c.dim
  {
    NormFits(c.nLayers, c.dim, l);
    var o := off + l * c.dim * 4;
    ReadF32s(k, buf[o..o + c.dim * 4])
  }

  function LayerAt(k: Codec, buf: seq<Byte>, v: View, l: nat): Layer
    requires Inside(buf, v) && l < v.h.c.nLayers
  {
    Layer(NormAt(k, buf, v.h.c, v.rmsAtt, l), NormAt(k, buf, v.h.c, v.rmsFfn, l),
          GroupMatrix(k, buf, v, 1, l), GroupMatrix(k, buf, v, 2, l), GroupMatrix(k, buf, v, 3, l),
          GroupMatrix(k, buf, v, 4, l), GroupMatrix(k, buf, v, 5, l), GroupMatrix(k, buf, v, 6, l),
          GroupMatrix(k, buf, v, 7, l))
  }

  /** What the engine decodes with: everything read from the buffer where the view says. */
  function ModelOf(k: Codec, lm: Libm, buf: seq<Byte>, v: View): Model
    requires Inside(buf, v)
  {
    var c := v.h.c;
    Model(c, lm, GroupMatrix(k, buf, v, 0, 0),
          seq(c.nLayers, l requires 0 <= l < c.nLayers => LayerAt(k, buf, v, l)),
          ReadF32s(k, buf[v.rmsFinal..v.rmsFinal + c.dim * 4]), GroupMatrix(k, buf, v, 8, 0))
  }

  // ---- every parsed buffer gives a model -----------------------------------------------------

  lemma RegionInside(h: Header, j: nat)
    requires h.c.nHeads > 0 && h.c.gs > 0 && j < |Sizes(h)|
    ensures Base(h, j) + Sizes(h)[j] <= End(h)
  {
    hide Sizes;
    SumGrows(Sizes(h), j + 1, |Sizes(h)|);
  }

  lemma LayoutHolds(buf: seq<Byte>, h: Header, i: nat)
    requires Accepted(h) && End(h) <= |buf| && i < 9
    ensures Holds(buf, h, i, GroupIn(Layout(h), i))
  {
    hide Accepted, Stride, EachOf, Base, End;
    Parts(h);
    var j := if i == 8 && h.shared then 0 else i;
    RegionInside(h, j + 3);
    assert Sizes(h)[j + 3] == GroupSize(h, j);
    GroupOfLayout(h, i, j);
    assert EachOf(h, i) == EachOf(h, j) by { SameEach(h, i, j); }
  }

  lemma SameEach(h: Header, i: nat, j: nat)
    requires h.c.nHeads > 0 && (i == j || (i == 8 && j == 0))
    ensures EachOf(h, i) == EachOf(h, j)
  {
  }

  lemma GroupOfLayout(h: Header, i: nat, j: nat)
    requires h.c.nHeads > 0 && h.c.gs > 0 && i < 9 && j + 3 < |Sizes(h)| && j == if i == 8 && h.shared then 0 else i
    ensures GroupIn(Layout(h), i) == QGroupOf(h, j)
  {
    hide Sizes, QGroupOf, Base;
  }

  /** Everything a parsed view names lies in the buffer. */
  lemma ParsedInside(buf: seq<Byte>)
    requires ParsedOf(buf).Ok?
    ensures Inside(buf, ParsedOf(buf).view) && Accepted(ParsedOf(buf).view.h)
  {
    hide Accepted, ParsedOf, PositiveAt, HeaderAt, Holds, Sizes, End;
    ParsedIs(buf);
    LayoutInside(buf, ParsedOf(buf).view.h);
  }

  lemma LayoutInside(buf: seq<Byte>, h: Header)
    requires Accepted(h) && End(h) <= |buf|
    ensures Inside(buf, Layout(h))
  {
    hide Accepted, Holds, Sizes, End, Base, QGroupOf, GroupIn;
    Parts(h);
    forall i | 0 <= i < 9 ensures Holds(buf, h, i, GroupIn(Layout(h), i)) { LayoutHolds(buf, h, i); }
    NormsInside(h);
  }

  lemma NormsInside(h: Header)
    requires h.c.nHeads > 0 && h.c.gs > 0
    ensures Base(h, 0) + h.c.nLayers * h.c.dim * 4 <= End(h) && Base(h, 1) + h.c.nLayers * h.c.dim * 4 <= End(h)
    ensures Base(h, 2) + h.c.dim * 4 <= End(h)
  {
    hide Base, End;
    RegionInside(h, 0);
    RegionInside(h, 1);
    RegionInside(h, 2);
  }

  lemma MatrixShape(k: Codec, buf: seq<Byte>, g: QGroup, l: nat, rows: nat, n: nat)
    requires g.gs > 0 && l < g.count && g.base + Total(g) <= |buf| && g.each == rows * n && Groups(n, g.gs)
    ensures IsMatrix(MatrixAt(k, buf, g, l), rows, n, g.gs)
  {
    hide TensorAt, Total;
    var m := n / g.gs;
    assert rows * n == rows * (m * g.gs) == (rows * m) * g.gs;
    GroupIndex(g.gs, rows * m, 0);
  }

  /** Tensor `l` of group `i`, as a matrix of `rows` rows. */
  lemma GroupShape(k: Codec, buf: seq<Byte>, v: View, i: nat, l: nat, rows: nat, n: nat)
    requires Inside(buf, v) && i < 9 && l < CountOf(v.h, i) && EachOf(v.h, i) == rows * n && Groups(n, v.h.c.gs)
    ensures IsMatrix(GroupMatrix(k, buf, v, i, l), rows, n, v.h.c.gs)
  {
    hide MatrixAt, GroupIn, EachOf, IsMatrix;
    assert Holds(buf, v.h, i, GroupIn(v, i));
    MatrixShape(k, buf, GroupIn(v, i), l, rows, n);
  }

  lemma LayerShape(k: Codec, buf: seq<Byte>, v: View, l: nat)
    requires Inside(buf, v) && ValidConfig(v.h.c) && l < v.h.c.nLayers
    ensures ValidLayer(v.h.c, LayerAt(k, buf, v, l))
  {
    hide GroupMatrix, Inside, NormAt, IsMatrix, KvDim;
    var c := v.h.c;
    Sides(v.h);
    assert v.h.c.nHeads > 0 && Groups(c.dim, c.gs) && Groups(c.hidden, c.gs);
    InsideNorms(buf, v);
    GroupShape(k, buf, v, 1, l, c.dim, c.dim);
    GroupShape(k, buf, v, 2, l, KvDim(c), c.dim);
    GroupShape(k, buf, v, 3, l, KvDim(c), c.dim);
    GroupShape(k, buf, v, 4, l, c.dim, c.dim);
    GroupShape(k, buf, v, 5, l, c.hidden, c.dim);
    GroupShape(k, buf, v, 6, l, c.dim, c.hidden);
    GroupShape(k, buf, v, 7, l, c.hidden, c.dim);
  }

  lemma InsideNorms(buf: seq<Byte>, v: View)
    requires Inside(buf, v)
    ensures v.rmsAtt + v.h.c.nLayers * v.h.c.dim * 4 <= |buf| && v.rmsFfn + v.h.c.nLayers * v.h.c.dim * 4 <= |buf|
    ensures v.rmsFinal + v.h.c.dim * 4 <= |buf|
  {
  }

  /** Element counts as rows times columns. */
  lemma Sides(h: Header)
    requires h.c.nHeads > 0
    ensures EachOf(h, 0) == h.c.vocab * h.c.dim && EachOf(h, 8) == h.c.vocab * h.c.dim
    ensures EachOf(h, 1) == EachOf(h, 4) == h.c.dim * h.c.dim
    ensures EachOf(h, 2) == EachOf(h, 3) == KvDim(h.c) * h.c.dim
    ensures EachOf(h, 5) == EachOf(h, 7) == h.c.hidden * h.c.dim && EachOf(h, 6) == h.c.dim * h.c.hidden
  {
  }

  /** Every buffer that parses, with a configuration the engine can run, gives a model the engine can run. */
  lemma ParsedModelIsValid(k: Codec, lm: Libm, buf: seq<Byte>)
    requires ParsedOf(buf).Ok? && ValidConfig(ParsedOf(buf).view.h.c)
    ensures Inside(buf, ParsedOf(buf).view) && ValidModel(ModelOf(k, lm, buf, ParsedOf(buf).view))
  {
    hide ParsedOf, LayerAt, ValidLayer, GroupMatrix, IsMatrix, Inside, ReadF32s;
    ParsedInside(buf);
    var v := ParsedOf(buf).view;
    var c := v.h.c;
    assert c.nHeads > 0;
    Sides(v.h);
    InsideNorms(buf, v);
    GroupShape(k, buf, v, 0, 0, c.vocab, c.dim);
    GroupShape(k, buf, v, 8, 0, c.vocab, c.dim);
    FinalNorm(k, buf, v);
    forall l | 0 <= l < c.nLayers ensures ValidLayer(c, LayerAt(k, buf, v, l)) { LayerShape(k, buf, v, l); }
  }

  lemma FinalNorm(k: Codec, buf: seq<Byte>, v: View)
    requires Inside(buf, v)
    ensures |ReadF32s(k, buf[v.rmsFinal..v.rmsFinal + v.h.c.dim * 4])| == v.h.c.dim
  {
  }

  // ---- a written checkpoint gives the quantised weights --------------------------------------

  /** Every norm weight and every scale survives being kept in 32 bits. */
  ghost predicate Exact(k: Codec, h: Header, w: Weights)
    requires Writable(h, w)
  {
    && Exact32(k, w.rmsAtt) && Exact32(k, w.rmsFfn) && Exact32(k, w.rmsFinal)
    && forall i, l | 0 <= i < FileGroups(h) && 0 <= l < |TensorsOf(w, i)| ::
         Exact32(k, QuantisedAt(h, w, i, l).s)
  }

  function QuantisedAt(h: Header, w: Weights, i: nat, l: nat): Quant
    requires Writable(h, w) && i < FileGroups(h) && l < |TensorsOf(w, i)|
  {
    assert CheckpointWriter.AllGroups(TensorsOf(w, i), h.c.gs);
    Quantized(TensorsOf(w, i)[l], h.c.gs)
  }

  /** The group a view reads group `i` from. */
  function Source(h: Header, i: nat): nat { if i == 8 && h.shared then 0 else i }

  lemma HasTensor(h: Header, w: Weights, i: nat, l: nat)
    requires h.c.nHeads > 0 && Matches(h, w) && i < 9 && l < CountOf(h, i)
    ensures Source(h, i) < FileGroups(h) && l < |TensorsOf(w, Source(h, i))|
  {
    hide EachOf, TensorsOf;
    assert Uniform(TensorsOf(w, Source(h, i)), CountOf(h, Source(h, i)), EachOf(h, Source(h, i)));
  }

  function SourceMatrix(h: Header, w: Weights, i: nat, l: nat): Quant
    requires h.c.nHeads > 0 && Matches(h, w) && Writable(h, w) && i < 9 && l < CountOf(h, i)
  {
    HasTensor(h, w, i, l);
    QuantisedAt(h, w, Source(h, i), l)
  }

  function SourceNorm(c: Config, xs: seq<real>, l: nat): seq<real>
    requires |xs| == c.nLayers * c.dim && l < c.nLayers
  {
    RowBound(c.nLayers, c.dim, l);
    xs[l * c.dim..l * c.dim + c.dim]
  }

  function SourceLayer(h: Header, w: Weights, l: nat): Layer
    requires h.c.nHeads > 0 && Matches(h, w) && Writable(h, w) && l < h.c.nLayers
  {
    Layer(SourceNorm(h.c, w.rmsAtt, l), SourceNorm(h.c, w.rmsFfn, l),
          SourceMatrix(h, w, 1, l), SourceMatrix(h, w, 2, l), SourceMatrix(h, w, 3, l), SourceMatrix(h, w, 4, l),
          SourceMatrix(h, w, 5, l), SourceMatrix(h, w, 6, l), SourceMatrix(h, w, 7, l))
  }

  /** The model of the weights themselves, quantised. */
  function SourceModel(h: Header, lm: Libm, w: Weights): Model
    requires h.c.nHeads > 0 && Matches(h, w) && Writable(h, w)
  {
    Model(h.c, lm, SourceMatrix(h, w, 0, 0),
          seq(h.c.nLayers, l requires 0 <= l < h.c.nLayers => SourceLayer(h, w, l)),
          w.rmsFinal, SourceMatrix(h, w, 8, 0))
  }

  /** Floats of part of a run of bytes. */
  lemma PartOfFloats(k: Codec, s: seq<Byte>, a: nat, n: nat)
    requires 4 * a + 4 * n <= |s|
    ensures ReadF32s(k, s[4 * a..4 * a + 4 * n]) == ReadF32s(k, s)[a..a + n]
  {
    var t := s[4 * a..4 * a + 4 * n];
    forall g | 0 <= g < n ensures U32At(t, 4 * g) == U32At(s, 4 * (a + g)) {
      WordOfPart(s, 4 * a, 4 * a + 4 * n, 4 * g);
    }
    hide U32At;
    assert |ReadF32s(k, t)| == n;
    forall g | 0 <= g < n ensures ReadF32s(k, t)[g] == ReadF32s(k, s)[a..a + n][g] {
    }
  }

  lemma WordOfPart(s: seq<Byte>, lo: nat, hi: nat, at: nat)
    requires lo <= hi <= |s| && at + 4 <= hi - lo
    ensures U32At(s[lo..hi], at) == U32At(s, lo + at)
  {
  }

  /** The norm weights of a layer read back. */
  lemma LayerNormReadsBack(k: Codec, h: Header, w: Weights, j: nat, l: nat)
    requires Accepted(h) && Matches(h, w) && Writable(h, w) && j < 2 && Exact32(k, NormOf(w, j)) && l < h.c.nLayers
    ensures Base(h, j) + h.c.nLayers * h.c.dim * 4 <= |Written(k, h, w)|
    ensures NormAt(k, Written(k, h, w), h.c, Base(h, j), l) == SourceNorm(h.c, NormOf(w, j), l)
  {
    hide Accepted, Written, ReadF32s, Base, Writable;
    NormsReadBack(k, h, w, j);
    Parts(h);
    var size := h.c.nLayers * h.c.dim * 4;
    assert Sizes(h)[j] == size;
    NormFits(h.c.nLayers, h.c.dim, l);
    var o := Base(h, j);
    var t := Written(k, h, w)[o..o + size];
    PartOfFloats(k, t, l * h.c.dim, h.c.dim);
    SliceOfSlice(Written(k, h, w), o, o + size, l * h.c.dim * 4, l * h.c.dim * 4 + h.c.dim * 4);
  }

  lemma ViewOfWritten(k: Codec, h: Header, w: Weights)
    requires Accepted(h) && Matches(h, w) && Writable(h, w)
    ensures Inside(Written(k, h, w), Layout(h)) && Layout(h).h == h
    ensures Layout(h).rmsAtt == Base(h, 0) && Layout(h).rmsFfn == Base(h, 1) && Layout(h).rmsFinal == Base(h, 2)
  {
    hide Accepted, Written, Inside, QGroupOf, Base, End;
    WrittenSize(k, h, w);
    Parts(h);
    LayoutInside(Written(k, h, w), h);
  }

  lemma GroupReadsBack(k: Codec, h: Header, w: Weights, i: nat, l: nat)
    requires Accepted(h) && Matches(h, w) && Writable(h, w) && Exact(k, h, w) && i < 9 && l < CountOf(h, i)
    ensures Inside(Written(k, h, w), Layout(h))
    ensures GroupMatrix(k, Written(k, h, w), Layout(h), i, l) == SourceMatrix(h, w, i, l)
  {
    hide Accepted, Written, Inside, QGroupOf, Layout, Matches, Writable, Sizes, GroupIn, TensorsOf, MatrixAt, Exact32;
    Parts(h);
    ViewOfWritten(k, h, w);
    HasTensor(h, w, i, l);
    var j := Source(h, i);
    WholeTensor(h, w, j, l);
    assert Exact32(k, QuantisedAt(h, w, j, l).s);
    MatrixReadsBack(k, h, w, j, l);
    GroupOfLayout(h, i, j);
  }

  lemma WholeTensor(h: Header, w: Weights, i: nat, l: nat)
    requires Writable(h, w) && i < FileGroups(h) && l < |TensorsOf(w, i)|
    ensures Groups(|TensorsOf(w, i)[l]|, h.c.gs)
  {
    hide TensorsOf;
    assert CheckpointWriter.AllGroups(TensorsOf(w, i), h.c.gs);
  }

  lemma LayerReadsBack(k: Codec, h: Header, w: Weights, l: nat)
    requires Accepted(h) && Matches(h, w) && Writable(h, w) && Exact(k, h, w) && l < h.c.nLayers
    ensures Inside(Written(k, h, w), Layout(h))
    ensures LayerAt(k, Written(k, h, w), Layout(h), l) == SourceLayer(h, w, l)
  {
    hide Accepted, Written, Inside, Layout, Writable, GroupMatrix, SourceMatrix, Exact32, NormAt, SourceNorm, Base;
    ViewOfWritten(k, h, w);
    LayerNormReadsBack(k, h, w, 0, l);
    LayerNormReadsBack(k, h, w, 1, l);
    GroupReadsBack(k, h, w, 1, l);
    GroupReadsBack(k, h, w, 2, l);
    GroupReadsBack(k, h, w, 3, l);
    GroupReadsBack(k, h, w, 4, l);
    GroupReadsBack(k, h, w, 5, l);
    GroupReadsBack(k, h, w, 6, l);
    GroupReadsBack(k, h, w, 7, l);
  }

  /** Writing a model, parsing the file and reading it gives the quantised model. */
  lemma WrittenModelReadsBack(k: Codec, lm: Libm, h: Header, w: Weights)
    requires Accepted(h) && Fits(h) && Matches(h, w) && Writable(h, w) && Exact(k, h, w)
    ensures var buf := Written(k, h, w);
            && ParsedOf(buf) == Parsed.Ok(Layout(h)) && Inside(buf, Layout(h))
            && ModelOf(k, lm, buf, Layout(h)) == SourceModel(h, lm, w)
  {
    hide Accepted, Fits, Written, Inside, Layout, Writable, GroupMatrix, SourceMatrix, Exact32, LayerAt, SourceLayer,
      Base, ParsedOf, ReadF32s, Matches, Exact;
    Parts(h);
    WriteThenParse(k, h, w);
    ViewOfWritten(k, h, w);
    GroupReadsBack(k, h, w, 0, 0);
    GroupReadsBack(k, h, w, 8, 0);
    forall l | 0 <= l < h.c.nLayers
      ensures LayerAt(k, Written(k, h, w), Layout(h), l) == SourceLayer(h, w, l)
    {
      LayerReadsBack(k, h, w, l);
    }
    FinalNormReadsBack(k, h, w);
  }

  lemma FinalNormReadsBack(k: Codec, h: Header, w: Weights)
    requires Accepted(h) && Matches(h, w) && Writable(h, w) && Exact(k, h, w)
    ensures Base(h, 2) + h.c.dim * 4 <= |Written(k, h, w)|
    ensures ReadF32s(k, Written(k, h, w)[Base(h, 2)..Base(h, 2) + h.c.dim * 4]) == w.rmsFinal
  {
    hide Accepted, Written, Writable, ReadF32s, Base, Matches, Exact32;
    Parts(h);
    NormsReadBack(k, h, w, 2);
    assert Sizes(h)[2] == h.c.dim * 4;
  }
}
