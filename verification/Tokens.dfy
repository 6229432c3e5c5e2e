/**
 The byte-pair tokenizer: characters to vocabulary pieces with raw bytes as the fallback, then greedy
 merging of the best adjacent pair until none is in the vocabulary.
 */
module Tokens {

  import opened Bytes
  import opened Utf8
  import opened Values

  const BOS := 1
  const EOS := 2

  datatype Tokenizer = Tokenizer(vocab: seq<seq<Byte>>, scores: seq<real>)

  predicate ValidTokenizer(v: Tokenizer) { |v.scores| == |v.vocab| > EOS }

  predicate Known(v: Tokenizer, toks: seq<nat>) { forall i | 0 <= i < |toks| :: toks[i] < |v.vocab| }

  // ---- looking pieces up ---------------------------------------------------------------------

  /** The first piece, from `k` on, that equals `s`. */
  function FindFrom(v: Tokenizer, s: seq<Byte>, k: nat): (r: Option<nat>)
    requires k <= |v.vocab|
    ensures r.Some? ==> k <= r.value < |v.vocab| && v.vocab[r.value] == s
    ensures r.None? <==> forall i | k <= i < |v.vocab| :: v.vocab[i] != s
    decreases |v.vocab| - k
  {
    if k == |v.vocab| then None else if v.vocab[k] == s then Some(k) else FindFrom(v, s, k + 1)
  }

  function Find(v: Tokenizer, s: seq<Byte>): (r: Option<nat>)
    ensures r.Some? ==> r.value < |v.vocab| && v.vocab[r.value] == s
    ensures r.None? <==> s !in v.vocab
  {
    FindFrom(v, s, 0)
  }

  // ---- characters to tokens ------------------------------------------------------------------

  /** The raw-byte token, or the unknown token when the vocabulary is too small for it. */
  function ByteToken(v: Tokenizer, b: Byte): nat { if b + 3 < |v.vocab| then b + 3 else 0 }

  function ByteTokens(v: Tokenizer, s: seq<Byte>): (r: seq<nat>)
    ensures |r| == |s|
  {
    seq(|s|, i requires 0 <= i < |s| => ByteToken(v, s[i]))
  }

  function CharTokens(v: Tokenizer, c: char): seq<nat> {
    match Find(v, Encode(c))
    case Some(id) => [id]
    case None => ByteTokens(v, Encode(c))
  }

  function TextTokens(v: Tokenizer, text: string): seq<nat> {
    if text == [] then [] else TextTokens(v, text[..|text| - 1]) + CharTokens(v, text[|text| - 1])
  }

  const SPACE: seq<Byte> := [32]

  /** The tokens before merging: the start mark, a dummy space, and the characters. */
  function Start(v: Tokenizer, text: string, bos: bool): seq<nat> { Head(v, text, bos) + TextTokens(v, text) }

  function Head(v: Tokenizer, text: string, bos: bool): seq<nat> {
    (if bos then [BOS] else []) +
    if text != [] && Find(v, SPACE).Some? then [Find(v, SPACE).value] else []
  }

  lemma {:induction false} TextTokensKnown(v: Tokenizer, text: string)
    requires ValidTokenizer(v)
    ensures Known(v, TextTokens(v, text))
  {
    if text != [] { TextTokensKnown(v, text[..|text| - 1]); }
  }

  lemma StartKnown(v: Tokenizer, text: string, bos: bool)
    requires ValidTokenizer(v)
    ensures Known(v, Start(v, text, bos))
  {
    TextTokensKnown(v, text);
  }

  // ---- merging -------------------------------------------------------------------------------

  /** What the pair at `i` merges into. */
  function PairId(v: Tokenizer, toks: seq<nat>, i: nat): (r: Option<nat>)
    requires Known(v, toks) && i + 1 < |toks|
    ensures r.Some? ==> r.value < |v.vocab| && v.vocab[r.value] == v.vocab[toks[i]] + v.vocab[toks[i + 1]]
  {
    Find(v, v.vocab[toks[i]] + v.vocab[toks[i + 1]])
  }

  datatype Merge = Merge(at: nat, id: nat)

  /** `m` is the first of the best-scoring merges among the first `n` pairs. */
  ghost predicate IsBest(v: Tokenizer, toks: seq<nat>, n: nat, m: Merge)
    requires ValidTokenizer(v) && Known(v, toks) && n < |toks|
  {
    && m.at < n && PairId(v, toks, m.at) == Some(m.id)
    && (forall i | 0 <= i < n && PairId(v, toks, i).Some? :: v.scores[PairId(v, toks, i).value] <= v.scores[m.id])
    && (forall i | 0 <= i < m.at && PairId(v, toks, i).Some? :: v.scores[PairId(v, toks, i).value] < v.scores[m.id])
  }

  /** The best merge among the first `n` pairs. */
  function Best(v: Tokenizer, toks: seq<nat>, n: nat): (r: Option<Merge>)
    requires ValidTokenizer(v) && Known(v, toks) && (n == 0 || n < |toks|)
    ensures r.None? ==> forall i | 0 <= i < n :: PairId(v, toks, i).None?
    ensures r.Some? ==> n > 0 && IsBest(v, toks, n, r.value)
  {
    if n == 0 then None
    else
      var b := Best(v, toks, n - 1);
      match PairId(v, toks, n - 1)
      case None => b
      case Some(id) => if b.None? || v.scores[id] > v.scores[b.value.id] then Some(Merge(n - 1, id)) else b
  }

  function Pairs(toks: seq<nat>): nat { if toks == [] then 0 else |toks| - 1 }

  function Apply(v: Tokenizer, toks: seq<nat>, m: Merge): (r: seq<nat>)
    requires Known(v, toks) && m.at + 1 < |toks| && m.id < |v.vocab|
    ensures |r| == |toks| - 1 && Known(v, r)
  {
    toks[..m.at] + [m.id] + toks[m.at + 2..]
  }

  /** Merge until no adjacent pair is in the vocabulary. */
  function Merged(v: Tokenizer, toks: seq<nat>): (r: seq<nat>)
    requires ValidTokenizer(v) && Known(v, toks)
    ensures Known(v, r)
    decreases |toks|
  {
    match Best(v, toks, Pairs(toks))
    case None => toks
    case Some(m) => Merged(v, Apply(v, toks, m))
  }

  function Encoded(v: Tokenizer, text: string, bos: bool, eos: bool): (r: seq<nat>)
    requires ValidTokenizer(v)
  {
    StartKnown(v, text, bos);
    Merged(v, Start(v, text, bos)) + if eos then [EOS] else []
  }

  // ---- the encoder ---------------------------------------------------------------------------

  method EncodeText(v: Tokenizer, text: string, bos: bool, eos: bool) returns (toks: seq<nat>)
    requires ValidTokenizer(v)
    ensures toks == Encoded(v, text, bos, eos)
  {
    hide Best, Merged, TextTokens, Find;
    toks := if bos then [BOS] else [];
    if text != [] {
      var space := Find(v, SPACE);
      if space.Some? { toks := toks + [space.value]; }
    }
    assert toks == Head(v, text, bos);
    toks := AddText(v, toks, text);
    StartKnown(v, text, bos);
    toks := MergeLoop(v, toks);
    if eos { toks := toks + [EOS]; }
  }

  method AddText(v: Tokenizer, head: seq<nat>, text: string) returns (toks: seq<nat>)
    ensures toks == head + TextTokens(v, text)
  {
    hide CharTokens;
    toks := head;
    var i := 0;
    while i < |text|
      invariant 0 <= i <= |text| && toks == head + TextTokens(v, text[..i])
    {
      assert text[..i + 1][..i] == text[..i];
      toks := toks + CharTokens(v, text[i]);
      i := i + 1;
    }
    assert text[..i] == text;
  }

  method MergeLoop(v: Tokenizer, start: seq<nat>) returns (toks: seq<nat>)
    requires ValidTokenizer(v) && Known(v, start)
    ensures toks == Merged(v, start)
  {
    hide IsBest;
    toks := start;
    while true
      invariant Known(v, toks) && Merged(v, toks) == Merged(v, start)
      decreases |toks|
    {
      var best := BestPair(v, toks);
      if best.None? { return; }
      MergeFits(v, toks, best.value);
      toks := Apply(v, toks, best.value);
    }
  }

  lemma MergeFits(v: Tokenizer, toks: seq<nat>, m: Merge)
    requires ValidTokenizer(v) && Known(v, toks) && Best(v, toks, Pairs(toks)) == Some(m)
    ensures m.at + 1 < |toks| && m.id < |v.vocab| && |Apply(v, toks, m)| < |toks|
  {
  }

  method BestPair(v: Tokenizer, toks: seq<nat>) returns (best: Option<Merge>)
    requires ValidTokenizer(v) && Known(v, toks)
    ensures best == Best(v, toks, Pairs(toks))
  {
    hide PairId, IsBest;
    best := None;
    var i := 0;
    while i < Pairs(toks)
      invariant 0 <= i <= Pairs(toks) && best == Best(v, toks, i)
    {
      var id := PairId(v, toks, i);
      BestFits(v, toks, i);
      if id.Some? && (best.None? || v.scores[id.value] > v.scores[best.value.id]) {
        best := Some(Merge(i, id.value));
      }
      i := i + 1;
    }
  }

  lemma BestFits(v: Tokenizer, toks: seq<nat>, n: nat)
    requires ValidTokenizer(v) && Known(v, toks) && n < |toks|
    ensures Best(v, toks, n).Some? ==> Best(v, toks, n).value.id < |v.vocab|
  {
  }

  // ---- decoding ------------------------------------------------------------------------------

  function HexVal(c: Byte): (r: Option<nat>)
    ensures r.Some? ==> r.value < 16
  {
    if 48 <= c <= 57 then Some(c - 48)
    else if 97 <= c <= 102 then Some(c - 97 + 10)
    else if 65 <= c <= 70 then Some(c - 65 + 10)
    else None
  }

  /** The byte a piece `<0xXX>` stands for. */
  function ParseHexByte(p: seq<Byte>): (r: Option<Byte>) {
    if |p| == 6 && p[..3] == [60, 48, 120] && p[5] == 62 then
      match (HexVal(p[3]), HexVal(p[4]))
      case (Some(hi), Some(lo)) => Some(hi * 16 + lo)
      case (None, _) => None
      case (Some(_), None) => None
    else None
  }

  /** A token's bytes, without the dummy space right after the start mark. */
  function Decode(v: Tokenizer, prev: nat, token: nat): seq<Byte> {
    if token >= |v.vocab| then []
    else
      var piece := v.vocab[token];
      var p := if prev == BOS && piece != [] && piece[0] == 32 then piece[1..] else piece;
      match ParseHexByte(p)
      case Some(b) => [b]
      case None => p
  }

  /** Decoding a run piece by piece, each with the token before it. */
  function DecodeRun(v: Tokenizer, toks: seq<nat>): seq<Byte> {
    if |toks| <= 1 then []
    else DecodeRun(v, toks[..|toks| - 1]) + Decode(v, toks[|toks| - 2], toks[|toks| - 1])
  }
}
