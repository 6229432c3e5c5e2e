/** Writing and parsing a checkpoint are inverse, the regions tile the file, and no shorter file parses. */
module CheckpointLaws {
  import opened Bytes
  import opened QMath
  import opened Reference
  import opened Checkpoint
  import opened CheckpointWriter

  // ---- the regions tile the file -------------------------------------------------------------

  datatype Region = Region(base: nat, size: nat)

  function OfGroup(g: QGroup): Region
    requires g.gs > 0
  {
    Region(g.base, Total(g))
  }

  ghost predicate GroupsPositive(v: View) {
    && v.tokens.gs > 0 && v.wq.gs > 0 && v.wk.gs > 0 && v.wv.gs > 0 && v.wo.gs > 0
    && v.w1.gs > 0 && v.w2.gs > 0 && v.w3.gs > 0 && v.wcls.gs > 0
  }

  /** The regions of a parsed checkpoint; a shared classifier is the token table again. */
  function Regions(v: View): seq<Region>
    requires GroupsPositive(v)
  {
    var c := v.h.c;
    [Region(v.rmsAtt, c.nLayers * c.dim * 4), Region(v.rmsFfn, c.nLayers * c.dim * 4), Region(v.rmsFinal, c.dim * 4),
     OfGroup(v.tokens), OfGroup(v.wq), OfGroup(v.wk), OfGroup(v.wv), OfGroup(v.wo),
     OfGroup(v.w1), OfGroup(v.w2), OfGroup(v.w3)] +
    if v.h.shared then [] else [OfGroup(v.wcls)]
  }

  /** The regions cover `lo` to `hi` in order, without gap or overlap. */
  ghost predicate Tiles(rs: seq<Region>, lo: nat, hi: nat)
    decreases |rs|
  {
    if rs == [] then lo == hi
    else
      var r := rs[|rs| - 1];
      r.base + r.size == hi && Tiles(rs[..|rs| - 1], lo, r.base)
  }

  lemma LayoutRegion(h: Header, i: nat)
    requires Accepted(h) && i < |Sizes(h)|
    ensures GroupsPositive(Layout(h)) && |Regions(Layout(h))| == |Sizes(h)|
    ensures Regions(Layout(h))[i] == Region(Base(h, i), Sizes(h)[i])
  {
    hide Stride, EachOf, CountOf, SumTo;
  }

  lemma {:induction false} RegionsTile(h: Header, n: nat)
    requires Accepted(h) && n <= |Sizes(h)|
    ensures GroupsPositive(Layout(h)) && |Regions(Layout(h))| == |Sizes(h)|
    ensures Tiles(Regions(Layout(h))[..n], HEADER_BYTES, Base(h, n))
  {
    hide Layout, Regions, Accepted, Sizes, GroupsPositive;
    Parts(h);
    LayoutRegion(h, 0);
    if n > 0 {
      RegionsTile(h, n - 1);
      LayoutRegion(h, n - 1);
      var rs := Regions(Layout(h));
      assert rs[..n][..n - 1] == rs[..n - 1];
    }
  }

  /** Whenever a buffer parses, its regions tile it from the end of the header to the last byte the tensors need. */
  lemma ParsedTiles(buf: seq<Byte>)
    requires ParsedOf(buf).Ok?
    ensures var v := ParsedOf(buf).view;
            Accepted(v.h) && GroupsPositive(v) && Tiles(Regions(v), HEADER_BYTES, End(v.h)) && End(v.h) <= |buf|
  {
    hide Accepted, Layout, Regions, Sizes, Tiles, Base, U32At, I32At;
    var h := ParsedOf(buf).view.h;
    ParsedIs(buf);
    Parts(h);
    RegionsTile(h, |Sizes(h)|);
    assert Regions(Layout(h))[..|Sizes(h)|] == Regions(Layout(h));
  }

  lemma ParsedIs(buf: seq<Byte>)
    requires ParsedOf(buf).Ok?
    ensures |buf| >= HEADER_BYTES && PositiveAt(buf)
    ensures var h := HeaderAt(buf); Accepted(h) && ParsedOf(buf) == Ok(Layout(h)) && Layout(h).h == h && End(h) <= |buf|
  {
  }

  // ---- prefixes ------------------------------------------------------------------------------

  lemma SameWords(buf: seq<Byte>, n: nat, at: nat)
    requires HEADER_BYTES <= n <= |buf| && at + 4 <= HEADER_BYTES
    ensures U32At(buf[..n], at) == U32At(buf, at) && I32At(buf[..n], at) == I32At(buf, at)
  {
  }

  lemma SameHeader(buf: seq<Byte>, n: nat)
    requires HEADER_BYTES <= n <= |buf|
    ensures U32At(buf[..n], 0) == U32At(buf, 0) && I32At(buf[..n], 4) == I32At(buf, 4)
    ensures PositiveAt(buf[..n]) == PositiveAt(buf)
    ensures PositiveAt(buf) ==> HeaderAt(buf[..n]) == HeaderAt(buf)
  {
    hide U32At, I32At;
    SameWords(buf, n, 0);
    SameWords(buf, n, 4);
    SameWords(buf, n, 8);
    SameWords(buf, n, 12);
    SameWords(buf, n, 16);
    SameWords(buf, n, 20);
    SameWords(buf, n, 24);
    SameWords(buf, n, 28);
    SameWords(buf, n, 32);
    SameWords(buf, n, 37);
  }

  /** A prefix that keeps the header parses, to the same view, exactly when it keeps every tensor. */
  lemma PrefixExactly(buf: seq<Byte>, n: nat)
    requires ParsedOf(buf).Ok? && HEADER_BYTES <= n <= |buf|
    ensures Accepted(ParsedOf(buf).view.h)
    ensures ParsedOf(buf[..n]) == if End(ParsedOf(buf).view.h) <= n then ParsedOf(buf) else Err(Truncated)
  {
    hide Accepted, Layout, End, U32At, I32At, PositiveAt, HeaderAt;
    SameHeader(buf, n);
    ParsedIs(buf);
  }

  // ---- writing, then parsing -----------------------------------------------------------------

  /** The numbers fit the 32-bit fields. */
  ghost predicate Fits(h: Header) {
    && h.c.dim <= I32_MAX && h.c.hidden <= I32_MAX && h.c.nLayers <= I32_MAX && h.c.nHeads <= I32_MAX
    && h.c.nKvHeads <= I32_MAX && h.c.vocab <= I32_MAX && h.seqLen <= I32_MAX && h.c.gs <= I32_MAX
  }

  /** Word `i` of a written header. */
  lemma HeaderWordAt(h: Header, rest: seq<Byte>, i: nat)
    requires i < 9
    ensures 0 <= HeaderWords(h)[i] < WORD ==> U32At(HeaderBytes(h) + rest, 4 * i) == HeaderWords(h)[i]
    ensures 0 <= HeaderWords(h)[i] <= I32_MAX ==> I32At(HeaderBytes(h) + rest, 4 * i) == HeaderWords(h)[i]
  {
    hide HeaderWords, LeAll, Le32, U32At, I32At, Zeros;
    var ns, buf := HeaderWords(h), HeaderBytes(h) + rest;
    assert |ns| == 9 by { NineWords(h); }
    WordAt(ns, i);
    assert buf[..36] == LeAll(ns);
    assert buf[4 * i..4 * i + 4] == buf[..36][4 * i..4 * i + 4];
    ReadsBack(buf, 4 * i, ns[i]);
  }

  lemma NineWords(h: Header)
    ensures |HeaderWords(h)| == 9
  {
  }

  lemma HeaderTail(h: Header, rest: seq<Byte>)
    ensures (HeaderBytes(h) + rest)[36] == if h.shared then 1 else 0
    ensures 0 <= h.c.gs <= I32_MAX ==> I32At(HeaderBytes(h) + rest, 37) == h.c.gs
  {
    hide HeaderWords, LeAll, Le32, U32At, I32At, Zeros;
    var buf := HeaderBytes(h) + rest;
    NineWords(h);
    assert buf[37..41] == Le32(h.c.gs);
    ReadsBack(buf, 37, h.c.gs);
  }

  /** The header reads back. */
  lemma HeaderReads(h: Header, rest: seq<Byte>)
    requires Accepted(h) && Fits(h)
    ensures var buf := HeaderBytes(h) + rest;
            U32At(buf, 0) == MAGIC && I32At(buf, 4) == VERSION && PositiveAt(buf) && HeaderAt(buf) == h
  {
    hide U32At, I32At, HeaderBytes, KvDim, WholeGroups;
    HeaderWordAt(h, rest, 0);
    HeaderWordAt(h, rest, 1);
    HeaderWordAt(h, rest, 2);
    HeaderWordAt(h, rest, 3);
    HeaderWordAt(h, rest, 4);
    HeaderWordAt(h, rest, 5);
    HeaderWordAt(h, rest, 6);
    HeaderWordAt(h, rest, 7);
    HeaderWordAt(h, rest, 8);
    HeaderTail(h, rest);
  }

  /** A written checkpoint is exactly as long as its layout says. */
  lemma WrittenSize(k: Codec, h: Header, w: Weights)
    requires Accepted(h) && Matches(h, w) && Writable(h, w)
    ensures |Written(k, h, w)| == End(h)
  {
    hide Sizes, Payload, HeaderBytes, Accepted, SumTo;
    Parts(h);
    PayloadSized(k, h, w);
    ConcatSize(Payload(k, h, w), Sizes(h));
  }

  /** Parsing what was written succeeds with the same configuration and the layout of that configuration. */
  lemma WriteThenParse(k: Codec, h: Header, w: Weights)
    requires Accepted(h) && Fits(h) && Matches(h, w)
    ensures Writable(h, w) && ParsedOf(Written(k, h, w)) == Ok(Layout(h))
  {
    hide HeaderBytes, Accepted, Layout, End, U32At, I32At, PositiveAt, HeaderAt, Fits, Payload, Concat;
    WholeTensors(h, w);
    Parts(h);
    WrittenSize(k, h, w);
    HeaderReads(h, Concat(Payload(k, h, w)));
    assert End(h) >= HEADER_BYTES by { EndPastHeader(h); }
  }

  lemma EndPastHeader(h: Header)
    requires h.c.nHeads > 0 && h.c.gs > 0
    ensures End(h) >= HEADER_BYTES
  {
    hide Sizes, SumTo;
  }

  /** Every strict prefix that keeps the header is rejected as truncated. */
  lemma StrictPrefixIsTruncated(k: Codec, h: Header, w: Weights, n: nat)
    requires Accepted(h) && Fits(h) && Matches(h, w)
    requires Writable(h, w) && HEADER_BYTES <= n < |Written(k, h, w)|
    ensures ParsedOf(Written(k, h, w)[..n]) == Err(Truncated)
  {
    hide Written, Accepted, Fits, ParsedOf, End;
    WriteThenParse(k, h, w);
    WrittenSize(k, h, w);
    PrefixExactly(Written(k, h, w), n);
  }

  // ---- the bytes of each tensor --------------------------------------------------------------

  /** Block `j` of the payload is at its base. */
  lemma BlockInFile(k: Codec, h: Header, w: Weights, j: nat)
    requires Accepted(h) && Matches(h, w) && Writable(h, w) && j < |Sizes(h)|
    ensures |Payload(k, h, w)| == |Sizes(h)| && Base(h, j) + Sizes(h)[j] <= |Written(k, h, w)|
    ensures Written(k, h, w)[Base(h, j)..Base(h, j) + Sizes(h)[j]] == Payload(k, h, w)[j]
  {
    hide Sizes, Payload, HeaderBytes, Accepted, SumTo, Concat;
    Parts(h);
    PayloadSized(k, h, w);
    BlockAt(Payload(k, h, w), Sizes(h), j);
    var c, lo := Concat(Payload(k, h, w)), SumTo(Sizes(h), j);
    assert (HeaderBytes(h) + c)[HEADER_BYTES + lo..HEADER_BYTES + lo + Sizes(h)[j]] == c[lo..lo + Sizes(h)[j]];
  }

  /** Tensor `l` of group `i`, read from the file, is exactly the quantised bytes written for it. */
  lemma TensorReadsBack(k: Codec, h: Header, w: Weights, i: nat, l: nat)
    requires Accepted(h) && Matches(h, w) && Writable(h, w)
    requires i < FileGroups(h) && l < |TensorsOf(w, i)|
    ensures i + 3 < |Sizes(h)| && Groups(|TensorsOf(w, i)[l]|, h.c.gs)
    ensures var g := QGroupOf(h, i); var r := Quantized(TensorsOf(w, i)[l], h.c.gs);
            l < g.count && g.gs > 0 && g.base + Total(g) <= |Written(k, h, w)| &&
            TensorAt(Written(k, h, w), g, l) == QTensor(AsBytes(r.q), F32s(k, r.s))
  {
    hide Written, Accepted, Stride, EachOf, F32s, AsBytes, Quantized, GroupBytes, Base, KvDim;
    Parts(h);
    WholeEach(h, i);
    var buf, ts, each, gs := Written(k, h, w), TensorsOf(w, i), EachOf(h, i), h.c.gs;
    assert Uniform(ts, CountOf(h, i), each);
    GroupBlock(k, h, w, i);
    TensorInGroup(k, ts, gs, each, l);
    QSize(k, ts[l], gs);
    TensorBytes(k, ts[l], gs, each);
    CutOfBlock(buf, QGroupOf(h, i), GroupBytes(k, ts, gs), l);
  }

  lemma GroupBlock(k: Codec, h: Header, w: Weights, i: nat)
    requires Accepted(h) && Matches(h, w) && Writable(h, w) && i < FileGroups(h)
    ensures i + 3 < |Sizes(h)|
    ensures var g := QGroupOf(h, i);
            g.gs > 0 && g.base + Total(g) <= |Written(k, h, w)| &&
            Written(k, h, w)[g.base..g.base + Total(g)] == GroupBytes(k, TensorsOf(w, i), h.c.gs)
  {
    hide Written, Accepted, Stride, EachOf, F32s, GroupBytes, Base, TensorsOf;
    Parts(h);
    BlockInFile(k, h, w, i + 3);
    assert Sizes(h)[i + 3] == GroupSize(h, i);
    assert Payload(k, h, w)[i + 3] == BlockOf(k, h, w, i);
  }

  /** Cutting tensor `l` out of the file is cutting it out of its group's block. */
  lemma CutOfBlock(buf: seq<Byte>, g: QGroup, block: seq<Byte>, l: nat)
    requires g.gs > 0 && g.base + Total(g) <= |buf| && buf[g.base..g.base + Total(g)] == block && l < g.count
    ensures var stride := Stride(g.each, g.gs);
            l * stride + stride <= |block| &&
            TensorAt(buf, g, l) == CutAt(block[l * stride..l * stride + stride], 0, g.each, g.each / g.gs * 4)
  {
    var stride := Stride(g.each, g.gs);
    StrideFits(stride, g.count, l);
    CutWithin(buf, g.base, block, l * stride, g.each, g.each / g.gs * 4);
  }

  lemma CutWithin(buf: seq<Byte>, base: nat, block: seq<Byte>, off: nat, n: nat, m: nat)
    requires base + |block| <= |buf| && buf[base..base + |block|] == block && off + n + m <= |block|
    ensures CutAt(buf, base + off, n, m) == CutAt(block[off..off + (n + m)], 0, n, m)
  {
    var t := block[off..off + (n + m)];
    SliceOfSlice(buf, base, base + |block|, off, off + (n + m));
    SliceOfSlice(buf, base + off, base + off + (n + m), 0, n);
    SliceOfSlice(buf, base + off, base + off + (n + m), n, n + m);
  }

  lemma SliceOfSlice(s: seq<Byte>, a: nat, b: nat, c: nat, d: nat)
    requires a <= b <= |s| && c <= d <= b - a
    ensures s[a..b][c..d] == s[a + c..a + d]
  {
    var t := s[a..b];
    forall i | 0 <= i < d - c ensures t[c..d][i] == s[a + c + i] {
    }
  }

  lemma TensorBytes(k: Codec, x: seq<real>, gs: nat, each: nat)
    requires Groups(|x|, gs) && |x| == each
    ensures |QBytes(k, x, gs)| == each + each / gs * 4
    ensures CutAt(QBytes(k, x, gs), 0, each, each / gs * 4) ==
            QTensor(AsBytes(Quantized(x, gs).q), F32s(k, Quantized(x, gs).s))
  {
    hide Quantized, AsBytes, F32s;
    F32Size(k, Quantized(x, gs).s);
  }

  // ---- what is on disk -----------------------------------------------------------------------

  /** A written file begins with "24ka" and the version, 2, least significant byte first; a flag of 0 or 1 is at 36. */
  lemma FirstBytes(k: Codec, h: Header, w: Weights)
    requires Accepted(h) && Matches(h, w) && Writable(h, w)
    ensures var b := CheckpointWriter.HeaderBytes(h);
            |b| == 256 && b <= Written(k, h, w) && b[..8] == [50, 52, 107, 97, 2, 0, 0, 0] && b[36] == if h.shared then 1 else 0
  {
    hide Payload, Le32;
    WordAt(HeaderWords(h), 0);
    WordAt(HeaderWords(h), 1);
    MarkBytes();
    var b := CheckpointWriter.HeaderBytes(h);
    assert b[0..4] == LeAll(HeaderWords(h))[0..4] && b[4..8] == LeAll(HeaderWords(h))[4..8];
    assert b[..8] == b[0..4] + b[4..8];
  }

  lemma MarkBytes()
    ensures Le32(MAGIC) == [50, 52, 107, 97] && Le32(VERSION) == [2, 0, 0, 0]
  {
  }

  /** A buffer is turned down for its length first, then for its mark, then for its version, then for its numbers. */
  lemma ErrorsAre(buf: seq<Byte>)
    ensures var r := ParsedOf(buf);
            && (r == Err(TooShort) <==> |buf| < 256)
            && (r.Err? && r.error.BadMagic? <==> |buf| >= 256 && buf[..4] != [50, 52, 107, 97])
            && (r.Err? && r.error.BadVersion? <==>
                 |buf| >= 256 && buf[..4] == [50, 52, 107, 97] && buf[4..8] != [2, 0, 0, 0])
            && (|buf| >= 256 && buf[..8] == [50, 52, 107, 97, 2, 0, 0, 0] ==>
                 r.Ok? || r == Err(BadConfig) || r == Err(Truncated))
  {
    hide Accepted, PositiveAt, HeaderAt, End, Layout;
    if |buf| >= 256 {
      MarkRead(buf);
      assert buf[..4] == buf[..8][..4] && buf[4..8] == buf[..8][4..8];
    }
  }

  lemma MarkRead(buf: seq<Byte>)
    requires |buf| >= 8
    ensures U32At(buf, 0) == MAGIC <==> buf[..4] == [50, 52, 107, 97]
    ensures I32At(buf, 4) == VERSION <==> buf[4..8] == [2, 0, 0, 0]
  {
    var m: seq<Byte>, v: seq<Byte> := buf[..4], buf[4..8];
    assert m[0] == buf[0] && m[1] == buf[1] && m[2] == buf[2] && m[3] == buf[3];
    assert v[0] == buf[4] && v[1] == buf[5] && v[2] == buf[6] && v[3] == buf[7];
  }
}
