/** The checkpoint writer, and the laws that tie it to the parser. */
module CheckpointWriter {
  import opened Values
  import opened Bytes
  import opened QMath
  import opened Reference
  import opened Checkpoint

  /** The bit pattern of a 32-bit float, and the value of a pattern. */
  datatype Codec = Codec(bits: real -> nat, value: nat -> real)

  /** The tensors of a model, before quantisation. */
  datatype Weights = Weights(
    rmsAtt: seq<real>, rmsFfn: seq<real>, rmsFinal: seq<real>, tokens: seq<real>,
    wq: seq<seq<real>>, wk: seq<seq<real>>, wv: seq<seq<real>>, wo: seq<seq<real>>,
    w1: seq<seq<real>>, w2: seq<seq<real>>, w3: seq<seq<real>>, wcls: Option<seq<real>>)

  /** The tensors of quantised group `i`, in file order. */
  function TensorsOf(w: Weights, i: nat): seq<seq<real>> {
    if i == 0 then [w.tokens] else if i == 1 then w.wq else if i == 2 then w.wk else if i == 3 then w.wv
    else if i == 4 then w.wo else if i == 5 then w.w1 else if i == 6 then w.w2 else if i == 7 then w.w3
    else match w.wcls case Some(t) => [t] case None => []
  }

  /** `n` tensors of `each` elements. */
  ghost predicate Uniform(ts: seq<seq<real>>, n: nat, each: nat) {
    |ts| == n && forall l | 0 <= l < n :: |ts[l]| == each
  }

  ghost predicate Matches(h: Header, w: Weights)
    requires h.c.nHeads > 0
  {
    && |w.rmsAtt| == |w.rmsFfn| == h.c.nLayers * h.c.dim && |w.rmsFinal| == h.c.dim && (w.wcls.None? <==> h.shared)
    && forall i | 0 <= i < FileGroups(h) :: Uniform(TensorsOf(w, i), CountOf(h, i), EachOf(h, i))
  }

  function FileGroups(h: Header): nat { if h.shared then 8 else 9 }

  // ---- bytes ---------------------------------------------------------------------------------

  function F32s(k: Codec, xs: seq<real>): seq<Byte> {
    if xs == [] then [] else F32s(k, xs[..|xs| - 1]) + Le32(k.bits(xs[|xs| - 1]))
  }

  /** A signed 8-bit value as a byte, and back. */
  function AsByte(q: int): Byte { q % 256 }

  function AsSigned(b: Byte): int { if b < 128 then b else b - 256 }

  function AsBytes(q: seq<int>): (s: seq<Byte>)
    ensures |s| == |q|
  {
    seq(|q|, i requires 0 <= i < |q| => AsByte(q[i]))
  }

  /** A quantised tensor as it is written: all the values, then all the scales. */
  function QBytes(k: Codec, x: seq<real>, gs: nat): seq<Byte>
    requires Groups(|x|, gs)
  {
    AsBytes(Quantized(x, gs).q) + F32s(k, Quantized(x, gs).s)
  }

  ghost predicate AllGroups(ts: seq<seq<real>>, gs: nat) { forall l | 0 <= l < |ts| :: Groups(|ts[l]|, gs) }

  function GroupBytes(k: Codec, ts: seq<seq<real>>, gs: nat): seq<Byte>
    requires AllGroups(ts, gs)
  {
    if ts == [] then [] else GroupBytes(k, ts[..|ts| - 1], gs) + QBytes(k, ts[|ts| - 1], gs)
  }

  /** The padding of the header. */
  function Zeros(n: nat): (s: seq<Byte>)
    ensures |s| == n && forall i | 0 <= i < n :: s[i] == 0
  {
    if n == 0 then [] else Zeros(n - 1) + [0]
  }

  function HeaderWords(h: Header): seq<int> {
    [MAGIC, VERSION, h.c.dim, h.c.hidden, h.c.nLayers, h.c.nHeads, h.c.nKvHeads, h.c.vocab, h.seqLen]
  }

  function HeaderBytes(h: Header): (s: seq<Byte>)
    ensures |s| == HEADER_BYTES
  {
    LeAll(HeaderWords(h)) + [if h.shared then 1 else 0] + Le32(h.c.gs) + Zeros(215)
  }

  // ---- the writer ----------------------------------------------------------------------------

  method PutF32s(k: Codec, out: seq<Byte>, xs: seq<real>) returns (r: seq<Byte>)
    ensures r == out + F32s(k, xs)
  {
    r := out;
    var i := 0;
    while i < |xs|
      invariant 0 <= i <= |xs| && r == out + F32s(k, xs[..i])
    {
      assert xs[..i + 1][..i] == xs[..i];
      r := r + Le32(k.bits(xs[i]));
      i := i + 1;
    }
    assert xs[..i] == xs;
  }

  /** Append one group's bytes and return its scale. */
  method PutGroup(out: seq<Byte>, x: seq<real>, gs: nat, g: nat) returns (r: seq<Byte>, scale: real)
    requires Groups(|x|, gs) && g < |x| / gs
    ensures scale == ScaleOf(x, gs, g) && g * gs + gs <= |x|
    ensures r == out + AsBytes(Quantized(x, gs).q)[g * gs..g * gs + gs]
  {
    hide ScaleOf, QuantOf;
    GroupFits(|x|, gs, g);
    var base := g * gs;
    ghost var want := AsBytes(Quantized(x, gs).q);
    scale := ScaleOf(x, gs, g);
    r := out;
    var k := 0;
    while k < gs
      invariant 0 <= k <= gs && r == out + want[base..base + k]
    {
      GroupIndex(gs, g, k);
      assert want[base + k] == AsByte(QuantOf(x[base + k], scale));
      assert want[base..base + k + 1] == want[base..base + k] + [want[base + k]];
      r := r + [AsByte(QuantOf(x[base + k], scale))];
      k := k + 1;
    }
  }

  /** Quantise a tensor and append it. */
  method QuantizeToBytes(k: Codec, out: seq<Byte>, x: seq<real>, gs: nat) returns (r: seq<Byte>)
    requires Groups(|x|, gs)
    ensures r == out + QBytes(k, x, gs)
  {
    hide ScaleOf, QuantAt, AsBytes, F32s;
    ghost var v := Quantized(x, gs);
    ghost var want := AsBytes(v.q);
    var groups := |x| / gs;
    assert |x| == groups * gs;
    var scales: seq<real> := [];
    r := out;
    var g := 0;
    while g < groups
      invariant 0 <= g <= groups && g * gs <= |x|
      invariant r == out + want[..g * gs] && scales == v.s[..g]
    {
      var scale;
      r, scale := PutGroup(r, x, gs, g);
      assert want[..g * gs] + want[g * gs..g * gs + gs] == want[..g * gs + gs];
      assert (g + 1) * gs == g * gs + gs;
      assert v.s[g] == scale;
      scales := scales + [scale];
      g := g + 1;
    }
    assert g == groups && want[..g * gs] == want && v.s[..g] == v.s;
    r := PutF32s(k, r, scales);
  }

  method PutTensors(k: Codec, out: seq<Byte>, ts: seq<seq<real>>, gs: nat) returns (r: seq<Byte>)
    requires AllGroups(ts, gs)
    ensures r == out + GroupBytes(k, ts, gs)
  {
    hide QBytes;
    r := out;
    var l := 0;
    while l < |ts|
      invariant 0 <= l <= |ts| && r == out + GroupBytes(k, ts[..l], gs)
    {
      assert ts[..l + 1][..l] == ts[..l];
      r := QuantizeToBytes(k, r, ts[l], gs);
      l := l + 1;
    }
    assert ts[..l] == ts;
  }

  /** Everything after the header, as blocks. */
  function Payload(k: Codec, h: Header, w: Weights): (b: seq<seq<Byte>>)
    requires Writable(h, w)
    ensures |b| == 3 + FileGroups(h)
  {
    [F32s(k, w.rmsAtt), F32s(k, w.rmsFfn), F32s(k, w.rmsFinal)] +
    seq(FileGroups(h), i requires 0 <= i < FileGroups(h) => BlockOf(k, h, w, i))
  }

  function BlockOf(k: Codec, h: Header, w: Weights, i: nat): seq<Byte>
    requires Writable(h, w) && i < FileGroups(h)
  {
    GroupBytes(k, TensorsOf(w, i), h.c.gs)
  }

  /** Every tensor is a whole number of groups. */
  ghost predicate Writable(h: Header, w: Weights) {
    forall i | 0 <= i < FileGroups(h) :: AllGroups(TensorsOf(w, i), h.c.gs)
  }

  /** The bytes of a checkpoint. */
  function Written(k: Codec, h: Header, w: Weights): seq<Byte>
    requires Writable(h, w)
  {
    HeaderBytes(h) + Concat(Payload(k, h, w))
  }

  lemma ConcatNext(b: seq<seq<Byte>>, i: nat)
    requires i < |b|
    ensures Concat(b[..i + 1]) == Concat(b[..i]) + b[i]
  {
    assert b[..i + 1][..i] == b[..i];
  }

  /** Header, norm weights, then the quantised groups in file order. */
  method WriteV2(k: Codec, h: Header, w: Weights) returns (out: seq<Byte>)
    requires Writable(h, w) && (w.wcls.Some? <==> !h.shared)
    ensures out == Written(k, h, w)
  {
    hide Concat, F32s, GroupBytes, HeaderWords, Zeros, Le32, LeAll;
    ghost var b, head := Payload(k, h, w), HeaderBytes(h);
    out := HeaderBytes(h);
    NoBlocks(b);
    ConcatNext(b, 0);
    ConcatNext(b, 1);
    ConcatNext(b, 2);
    out := PutF32s(k, out, w.rmsAtt);
    out := PutF32s(k, out, w.rmsFfn);
    out := PutF32s(k, out, w.rmsFinal);
    assert out == head + Concat(b[..3]);
    var i := 0;
    while i < FileGroups(h)
      invariant 0 <= i <= FileGroups(h) && out == head + Concat(b[..3 + i])
    {
      ConcatNext(b, 3 + i);
      assert b[3 + i] == BlockOf(k, h, w, i);
      out := PutTensors(k, out, TensorsOf(w, i), h.c.gs);
      i := i + 1;
    }
    assert b[..3 + i] == b;
  }

  lemma NoBlocks(b: seq<seq<Byte>>)
    ensures Concat(b[..0]) == []
  {
  }

  // ---- sizes ---------------------------------------------------------------------------------

  lemma {:induction false} F32Size(k: Codec, xs: seq<real>)
    ensures |F32s(k, xs)| == 4 * |xs|
  {
    if xs != [] { F32Size(k, xs[..|xs| - 1]); }
  }

  lemma QSize(k: Codec, x: seq<real>, gs: nat)
    requires Groups(|x|, gs)
    ensures |QBytes(k, x, gs)| == Stride(|x|, gs)
  {
    hide Quantized, AsBytes;
    F32Size(k, Quantized(x, gs).s);
  }

  /** The bytes of equal tensors, and where each one is. */
  lemma {:induction false} GroupBytesSize(k: Codec, ts: seq<seq<real>>, gs: nat, each: nat)
    requires AllGroups(ts, gs) && Groups(each, gs) && Uniform(ts, |ts|, each)
    ensures |GroupBytes(k, ts, gs)| == Stride(each, gs) * |ts|
  {
    hide Stride, QBytes;
    if ts != [] {
      GroupBytesSize(k, ts[..|ts| - 1], gs, each);
      QSize(k, ts[|ts| - 1], gs);
      NextMultiple(Stride(each, gs), |ts| - 1);
    }
  }

  lemma NextMultiple(a: nat, n: nat)
    ensures a * (n + 1) == a * n + a
  {
  }

  lemma {:induction false} TensorInGroup(k: Codec, ts: seq<seq<real>>, gs: nat, each: nat, l: nat)
    requires AllGroups(ts, gs) && Groups(each, gs) && Uniform(ts, |ts|, each) && l < |ts|
    ensures var stride := Stride(each, gs);
            l * stride + stride <= |GroupBytes(k, ts, gs)| &&
            GroupBytes(k, ts, gs)[l * stride..l * stride + stride] == QBytes(k, ts[l], gs)
  {
    hide Stride, QBytes, GroupBytes;
    var n, stride := |ts| - 1, Stride(each, gs);
    GroupBytesSize(k, ts[..n], gs, each);
    QSize(k, ts[n], gs);
    GroupBytesNext(k, ts, gs);
    if l < n {
      TensorInGroup(k, ts[..n], gs, each, l);
      SliceOfFirst(GroupBytes(k, ts[..n], gs), QBytes(k, ts[n], gs), l * stride, stride);
    } else {
      SliceOfLast(GroupBytes(k, ts[..n], gs), QBytes(k, ts[n], gs), l * stride, stride);
    }
  }

  lemma GroupBytesNext(k: Codec, ts: seq<seq<real>>, gs: nat)
    requires AllGroups(ts, gs) && ts != []
    ensures GroupBytes(k, ts, gs) == GroupBytes(k, ts[..|ts| - 1], gs) + QBytes(k, ts[|ts| - 1], gs)
  {
  }

  lemma SliceOfFirst(a: seq<Byte>, b: seq<Byte>, lo: nat, n: nat)
    requires lo + n <= |a|
    ensures (a + b)[lo..lo + n] == a[lo..lo + n]
  {
  }

  lemma SliceOfLast(a: seq<Byte>, b: seq<Byte>, lo: nat, n: nat)
    requires lo == |a| && n == |b|
    ensures (a + b)[lo..lo + n] == b
  {
  }

  lemma WholeTensors(h: Header, w: Weights)
    requires Accepted(h) && Matches(h, w)
    ensures Writable(h, w)
    ensures forall i | 0 <= i < FileGroups(h) :: Groups(EachOf(h, i), h.c.gs)
  {
    hide KvDim;
    forall i | 0 <= i < FileGroups(h) ensures Groups(EachOf(h, i), h.c.gs) && AllGroups(TensorsOf(w, i), h.c.gs) {
      WholeEach(h, i);
      assert Uniform(TensorsOf(w, i), CountOf(h, i), EachOf(h, i));
    }
  }

  lemma WholeEach(h: Header, i: nat)
    requires Accepted(h)
    ensures Groups(EachOf(h, i), h.c.gs)
  {
    hide KvDim;
  }

  /** The blocks written have the sizes the parser expects. */
  lemma PayloadSized(k: Codec, h: Header, w: Weights)
    requires Accepted(h) && Matches(h, w) && Writable(h, w)
    ensures Sized(Payload(k, h, w), Sizes(h))
  {
    hide GroupBytes, F32s, Stride, EachOf, Accepted, KvDim;
    Parts(h);
    var b, sizes := Payload(k, h, w), Sizes(h);
    F32Size(k, w.rmsAtt);
    F32Size(k, w.rmsFfn);
    F32Size(k, w.rmsFinal);
    forall j | 0 <= j < |b| ensures |b[j]| == sizes[j] {
      if j >= 3 {
        var i := j - 3;
        WholeEach(h, i);
        assert Uniform(TensorsOf(w, i), CountOf(h, i), EachOf(h, i));
        GroupBytesSize(k, TensorsOf(w, i), h.c.gs, EachOf(h, i));
      }
    }
  }
}
