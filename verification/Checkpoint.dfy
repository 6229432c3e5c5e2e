/** The version-2 checkpoint: its header, the walk that finds every tensor, and the writer. */
module Checkpoint {
  import opened Bytes
  import opened QMath
  import opened Reference

  const MAGIC := 0x616b_3432
  const VERSION := 2
  const HEADER_BYTES := 256
  const I32_MAX := 0x7fff_ffff

  datatype Header = Header(c: Config, seqLen: nat, shared: bool)

  datatype ModelError = TooShort | BadMagic(magic: nat) | BadVersion(version: int) | BadConfig | Truncated

  datatype Parsed = Ok(view: View) | Err(error: ModelError)

  /** A run of `count` tensors of `each` elements, from offset `base`. */
  datatype QGroup = QGroup(base: nat, count: nat, each: nat, gs: nat)

  /** One tensor's bytes: the 8-bit values, then the scales. */
  datatype QTensor = QTensor(q: seq<Byte>, s: seq<Byte>)

  datatype View = View(
    h: Header, rmsAtt: nat, rmsFfn: nat, rmsFinal: nat, tokens: QGroup,
    wq: QGroup, wk: QGroup, wv: QGroup, wo: QGroup, w1: QGroup, w2: QGroup, w3: QGroup, wcls: QGroup)

  function Stride(each: nat, gs: nat): nat
    requires gs > 0
  {
    each + each / gs * 4
  }

  function Total(g: QGroup): nat
    requires g.gs > 0
  {
    Stride(g.each, g.gs) * g.count
  }

  function TensorAt(buf: seq<Byte>, g: QGroup, l: nat): (t: QTensor)
    requires g.gs > 0 && l < g.count && g.base + Total(g) <= |buf|
    ensures |t.q| == g.each && |t.s| == g.each / g.gs * 4
  {
    StrideFits(Stride(g.each, g.gs), g.count, l);
    CutAt(buf, g.base + l * Stride(g.each, g.gs), g.each, g.each / g.gs * 4)
  }

  function CutAt(buf: seq<Byte>, off: nat, n: nat, m: nat): (t: QTensor)
    requires off + n + m <= |buf|
    ensures |t.q| == n && |t.s| == m
  {
    QTensor(buf[off..off + n], buf[off + n..off + n + m])
  }

  lemma StrideFits(stride: nat, count: nat, l: nat)
    requires l < count
    ensures l * stride + stride <= stride * count
  {
    MulMonotone(l + 1, count, stride);
  }

  // ---- what a configuration asks for ---------------------------------------------------------

  /** Every number is positive and the sizes are whole groups; the parser checks no more than this. */
  predicate Accepted(h: Header) {
    var c := h.c;
    && c.dim > 0 && c.hidden > 0 && c.nLayers > 0 && c.nHeads > 0 && c.nKvHeads > 0 && c.vocab > 0
    && h.seqLen > 0 && c.gs > 0 && c.dim % c.nHeads == 0
    && WholeGroups(c.vocab * c.dim, c.gs) && WholeGroups(c.dim * c.dim, c.gs)
    && WholeGroups(c.dim * KvDim(c), c.gs) && WholeGroups(c.dim * c.hidden, c.gs)
  }

  predicate WholeGroups(n: nat, gs: nat)
    requires gs > 0
  {
    n != 0 && n % gs == 0
  }

  /** How many tensors quantised group `i` has, in file order: tokens, wq, wk, wv, wo, w1, w2, w3, wcls. */
  function CountOf(h: Header, i: nat): nat { if i == 0 || i == 8 then 1 else h.c.nLayers }

  /** How many elements each of its tensors has. */
  function EachOf(h: Header, i: nat): nat
    requires h.c.nHeads > 0
  {
    var c := h.c;
    if i == 0 || i == 8 then c.vocab * c.dim
    else if i == 1 || i == 4 then c.dim * c.dim
    else if i == 2 || i == 3 then c.dim * KvDim(c)
    else c.dim * c.hidden
  }

  function GroupSize(h: Header, i: nat): nat
    requires h.c.nHeads > 0 && h.c.gs > 0
  {
    Stride(EachOf(h, i), h.c.gs) * CountOf(h, i)
  }

  /** The sizes of the regions after the header; a shared classifier has none of its own. */
  function Sizes(h: Header): (s: seq<nat>)
    requires h.c.nHeads > 0 && h.c.gs > 0
    ensures |s| == if h.shared then 11 else 12
  {
    [h.c.nLayers * h.c.dim * 4, h.c.nLayers * h.c.dim * 4, h.c.dim * 4] +
    seq(if h.shared then 8 else 9, i requires 0 <= i < 9 => GroupSize(h, i))
  }

  /** Where region `k` begins. */
  function Base(h: Header, k: nat): nat
    requires h.c.nHeads > 0 && h.c.gs > 0 && k <= |Sizes(h)|
  {
    HEADER_BYTES + SumTo(Sizes(h), k)
  }

  function End(h: Header): nat
    requires h.c.nHeads > 0 && h.c.gs > 0
  {
    Base(h, |Sizes(h)|)
  }

  function QGroupOf(h: Header, i: nat): QGroup
    requires h.c.nHeads > 0 && h.c.gs > 0 && i + 3 < |Sizes(h)|
  {
    QGroup(Base(h, i + 3), CountOf(h, i), EachOf(h, i), h.c.gs)
  }

  /** Where everything is. */
  function Layout(h: Header): View
    requires h.c.nHeads > 0 && h.c.gs > 0
  {
    View(h, Base(h, 0), Base(h, 1), Base(h, 2), QGroupOf(h, 0),
         QGroupOf(h, 1), QGroupOf(h, 2), QGroupOf(h, 3), QGroupOf(h, 4), QGroupOf(h, 5), QGroupOf(h, 6), QGroupOf(h, 7),
         if h.shared then QGroupOf(h, 0) else QGroupOf(h, 8))
  }

  // ---- parsing -------------------------------------------------------------------------------

  /** The numbers of the header; the parser rejects them unless all are positive. */
  function HeaderAt(buf: seq<Byte>): Header
    requires |buf| >= HEADER_BYTES && PositiveAt(buf)
  {
    Header(Config(I32At(buf, 8), I32At(buf, 12), I32At(buf, 16), I32At(buf, 20), I32At(buf, 24), I32At(buf, 28),
                  I32At(buf, 37)),
           I32At(buf, 32), buf[36] != 0)
  }

  predicate PositiveAt(buf: seq<Byte>)
    requires |buf| >= HEADER_BYTES
  {
    && I32At(buf, 8) > 0 && I32At(buf, 12) > 0 && I32At(buf, 16) > 0 && I32At(buf, 20) > 0
    && I32At(buf, 24) > 0 && I32At(buf, 28) > 0 && I32At(buf, 32) > 0 && I32At(buf, 37) > 0
  }

  /** What parsing a buffer gives. */
  function ParsedOf(buf: seq<Byte>): Parsed {
    if |buf| < HEADER_BYTES then Err(TooShort)
    else if U32At(buf, 0) != MAGIC then Err(BadMagic(U32At(buf, 0)))
    else if I32At(buf, 4) != VERSION then Err(BadVersion(I32At(buf, 4)))
    else if !PositiveAt(buf) || !Accepted(HeaderAt(buf)) then Err(BadConfig)
    else if End(HeaderAt(buf)) > |buf| then Err(Truncated)
    else Ok(Layout(HeaderAt(buf)))
  }

  /** Take the next group and move past it. */
  method Take(count: nat, each: nat, gs: nat, off: nat) returns (g: QGroup, next: nat)
    requires gs > 0
    ensures g == QGroup(off, count, each, gs) && next == off + Stride(each, gs) * count
  {
    g := QGroup(off, count, each, gs);
    next := off + Total(g);
  }

  lemma NextBase(h: Header, k: nat)
    requires h.c.nHeads > 0 && h.c.gs > 0 && k < |Sizes(h)|
    ensures Base(h, k + 1) == Base(h, k) + if k < 3 then Sizes(h)[k] else GroupSize(h, k - 3)
  {
  }

  /** Walk the payload: every group begins where the one before it ends. */
  method Walk(h: Header) returns (v: View, end: nat)
    requires Accepted(h)
    ensures v == Layout(h) && end == End(h)
  {
    hide Stride, Sizes, Accepted, WholeGroups, KvDim, Base;
    var c := h.c;
    var gs := c.gs;
    Parts(h);
    var off := HEADER_BYTES;
    var rmsAtt := off;
    off := off + c.nLayers * c.dim * 4;
    var rmsFfn := off;
    off := off + c.nLayers * c.dim * 4;
    var rmsFinal := off;
    off := off + c.dim * 4;
    var tokens, wq, wk, wv, wo, w1, w2, w3, wcls;
    assert off == Base(h, 3);
    tokens, off := Take(1, c.vocab * c.dim, gs, off);
    NextBase(h, 3);
    wq, off := Take(c.nLayers, c.dim * c.dim, gs, off);
    NextBase(h, 4);
    wk, off := Take(c.nLayers, c.dim * KvDim(c), gs, off);
    NextBase(h, 5);
    wv, off := Take(c.nLayers, c.dim * KvDim(c), gs, off);
    NextBase(h, 6);
    wo, off := Take(c.nLayers, c.dim * c.dim, gs, off);
    NextBase(h, 7);
    w1, off := Take(c.nLayers, c.dim * c.hidden, gs, off);
    NextBase(h, 8);
    w2, off := Take(c.nLayers, c.hidden * c.dim, gs, off);
    NextBase(h, 9);
    w3, off := Take(c.nLayers, c.dim * c.hidden, gs, off);
    NextBase(h, 10);
    wcls := tokens;
    if !h.shared {
      wcls, off := Take(1, c.dim * c.vocab, gs, off);
      NextBase(h, 11);
    }
    v := View(h, rmsAtt, rmsFfn, rmsFinal, tokens, wq, wk, wv, wo, w1, w2, w3, wcls);
    end := off;
  }

  lemma Parts(h: Header)
    requires Accepted(h)
    ensures h.c.nHeads > 0 && h.c.gs > 0
    ensures Base(h, 0) == HEADER_BYTES && Base(h, 1) == Base(h, 0) + h.c.nLayers * h.c.dim * 4
    ensures Base(h, 2) == Base(h, 1) + h.c.nLayers * h.c.dim * 4 && Base(h, 3) == Base(h, 2) + h.c.dim * 4
  {
    NextBase(h, 0);
    NextBase(h, 1);
    NextBase(h, 2);
  }

  /** Validate the header and find every tensor. */
  method Parse(buf: seq<Byte>) returns (r: Parsed)
    ensures r == ParsedOf(buf)
  {
    hide Accepted, Layout, End, U32At, I32At;
    if |buf| < HEADER_BYTES { return Err(TooShort); }
    var magic := U32At(buf, 0);
    if magic != MAGIC { return Err(BadMagic(magic)); }
    var version := I32At(buf, 4);
    if version != VERSION { return Err(BadVersion(version)); }
    var positive := PositiveAt(buf);
    if !positive { return Err(BadConfig); }
    var h := HeaderAt(buf);
    if !Accepted(h) { return Err(BadConfig); }
    var v, end := Walk(h);
    if end > |buf| { return Err(Truncated); }
    r := Ok(v);
  }
}
