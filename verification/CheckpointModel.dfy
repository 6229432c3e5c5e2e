/** The model a checkpoint stands for: what the engine reads is what the writer quantised. */
module CheckpointModel {
  import opened Bytes
  import opened QMath
  import opened QuantLaws
  import opened Checkpoint
  import opened CheckpointWriter
  import opened CheckpointLaws

  /** The floats of a run of bytes. */
  function ReadF32s(k: Codec, s: seq<Byte>): (xs: seq<real>)
    ensures |xs| == |s| / 4
  {
    seq(|s| / 4, g requires 0 <= g < |s| / 4 => k.value(U32At(s, 4 * g)))
  }

  /** A tensor as the matrix product reads it: signed values and float scales. */
  function ReadTensor(k: Codec, t: QTensor): Quant {
    Quant(seq(|t.q|, i requires 0 <= i < |t.q| => AsSigned(t.q[i])), ReadF32s(k, t.s))
  }

  /** Every value survives being kept in 32 bits. */
  ghost predicate Exact32(k: Codec, xs: seq<real>) {
    forall i | 0 <= i < |xs| :: k.bits(xs[i]) < WORD && k.value(k.bits(xs[i])) == xs[i]
  }

  lemma {:induction false} F32At(k: Codec, xs: seq<real>, i: nat)
    requires i < |xs|
    ensures |F32s(k, xs)| == 4 * |xs| && F32s(k, xs)[4 * i..4 * i + 4] == Le32(k.bits(xs[i]))
  {
    hide Le32;
    F32Size(k, xs);
    var n := |xs| - 1;
    F32Size(k, xs[..n]);
    if i < n {
      F32At(k, xs[..n], i);
      SliceOfFirst(F32s(k, xs[..n]), Le32(k.bits(xs[n])), 4 * i, 4);
    }
  }

  /** Floats read back. */
  lemma F32sReadBack(k: Codec, xs: seq<real>)
    requires Exact32(k, xs)
    ensures ReadF32s(k, F32s(k, xs)) == xs
  {
    hide F32s, U32At, Le32, I32At;
    F32Size(k, xs);
    forall i | 0 <= i < |xs| ensures ReadF32s(k, F32s(k, xs))[i] == xs[i] {
      F32At(k, xs, i);
      ReadsBack(F32s(k, xs), 4 * i, k.bits(xs[i]));
    }
  }

  /** A written tensor reads back as the quantised vector. */
  lemma TensorReads(k: Codec, x: seq<real>, gs: nat)
    requires Groups(|x|, gs) && Exact32(k, Quantized(x, gs).s)
    ensures ReadTensor(k, QTensor(AsBytes(Quantized(x, gs).q), F32s(k, Quantized(x, gs).s))) == Quantized(x, gs)
  {
    hide Quantized, F32s, ReadF32s;
    var v := Quantized(x, gs);
    F32sReadBack(k, v.s);
    forall i | 0 <= i < |v.q| ensures AsSigned(AsBytes(v.q)[i]) == v.q[i] {
      QuantisationError(x, gs, i);
    }
  }

  // ---- the whole model -----------------------------------------------------------------------

  /** Tensor `l` of a group, as the engine reads it. */
  function MatrixAt(k: Codec, buf: seq<Byte>, g: QGroup, l: nat): Quant
    requires g.gs > 0 && l < g.count && g.base + Total(g) <= |buf|
  {
    ReadTensor(k, TensorAt(buf, g, l))
  }

  /** Tensor `l` of group `i` of a written checkpoint, as the engine reads it, is what the writer quantised. */
  lemma MatrixReadsBack(k: Codec, h: Header, w: Weights, i: nat, l: nat)
    requires Accepted(h) && Matches(h, w) && Writable(h, w) && i < FileGroups(h) && l < |TensorsOf(w, i)|
    requires Groups(|TensorsOf(w, i)[l]|, h.c.gs) && Exact32(k, Quantized(TensorsOf(w, i)[l], h.c.gs).s)
    ensures i + 3 < |Sizes(h)| && h.c.gs > 0
    ensures var g := QGroupOf(h, i);
            l < g.count && g.gs > 0 && g.base + Total(g) <= |Written(k, h, w)| &&
            MatrixAt(k, Written(k, h, w), g, l) == Quantized(TensorsOf(w, i)[l], h.c.gs)
  {
    hide Written, Accepted, Quantized, AsBytes, F32s, QGroupOf, Total, TensorAt, ReadTensor, TensorsOf, Sizes;
    Parts(h);
    TensorReadsBack(k, h, w, i, l);
    TensorReads(k, TensorsOf(w, i)[l], h.c.gs);
  }

  /** The norm weights read back. */
  lemma NormsReadBack(k: Codec, h: Header, w: Weights, j: nat)
    requires Accepted(h) && Matches(h, w) && Writable(h, w) && j < 3
    requires Exact32(k, NormOf(w, j))
    ensures h.c.gs > 0 && j < |Sizes(h)| && Base(h, j) + Sizes(h)[j] <= |Written(k, h, w)|
    ensures ReadF32s(k, Written(k, h, w)[Base(h, j)..Base(h, j) + Sizes(h)[j]]) == NormOf(w, j)
  {
    hide Written, Accepted, F32s, ReadF32s, Base, Sizes;
    Parts(h);
    BlockInFile(k, h, w, j);
    F32sReadBack(k, NormOf(w, j));
  }

  function NormOf(w: Weights, j: nat): seq<real> {
    if j == 0 then w.rmsAtt else if j == 1 then w.rmsFfn else w.rmsFinal
  }
}
