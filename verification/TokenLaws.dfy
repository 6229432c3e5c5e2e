/** What the tokenizer promises: merging keeps the bytes and stops only when stuck, and decoding undoes encoding. */
module TokenLaws {
  import opened Bytes
  import opened Values
  import opened Tokens
  import opened Utf8

  // ---- merging, for any vocabulary -----------------------------------------------------------

  /** The concatenated pieces of a list of tokens. */
  function Spelled(v: Tokenizer, toks: seq<nat>): seq<Byte>
    requires Known(v, toks)
  {
    if toks == [] then [] else Spelled(v, toks[..|toks| - 1]) + v.vocab[toks[|toks| - 1]]
  }

  lemma {:induction false} SpelledSum(v: Tokenizer, a: seq<nat>, b: seq<nat>)
    requires Known(v, a) && Known(v, b)
    ensures Spelled(v, a + b) == Spelled(v, a) + Spelled(v, b)
  {
    if b == [] {
      assert a + b == a;
    } else {
      SpelledSum(v, a, b[..|b| - 1]);
      assert (a + b)[..|a + b| - 1] == a + b[..|b| - 1];
    }
  }

  lemma SpliceSpells(v: Tokenizer, a: seq<nat>, x: nat, y: nat, z: nat, c: seq<nat>)
    requires Known(v, a) && Known(v, c) && x < |v.vocab| && y < |v.vocab| && z < |v.vocab|
    requires v.vocab[z] == v.vocab[x] + v.vocab[y]
    ensures Known(v, a + ([x, y] + c)) && Known(v, a + ([z] + c))
    ensures Spelled(v, a + ([z] + c)) == Spelled(v, a + ([x, y] + c))
  {
    hide Spelled;
    SpelledOne(v, x);
    SpelledOne(v, y);
    SpelledOne(v, z);
    assert [x] + [y] == [x, y];
    SpelledSum(v, [x], [y]);
    SpelledSum(v, [x, y], c);
    SpelledSum(v, [z], c);
    SpelledSum(v, a, [x, y] + c);
    SpelledSum(v, a, [z] + c);
  }

  /** One merge shortens the list by one and keeps its bytes. */
  lemma MergeSpells(v: Tokenizer, toks: seq<nat>, m: Merge)
    requires Known(v, toks) && m.at + 1 < |toks| && PairId(v, toks, m.at) == Some(m.id)
    ensures |Apply(v, toks, m)| == |toks| - 1 && Spelled(v, Apply(v, toks, m)) == Spelled(v, toks)
  {
    hide Find, Spelled;
    var a, x, y, c := toks[..m.at], toks[m.at], toks[m.at + 1], toks[m.at + 2..];
    assert toks == a + ([x, y] + c);
    assert Apply(v, toks, m) == a + ([m.id] + c);
    SpliceSpells(v, a, x, y, m.id, c);
  }

  lemma SpelledOne(v: Tokenizer, x: nat)
    requires x < |v.vocab|
    ensures Spelled(v, [x]) == v.vocab[x]
  {
    assert [x][..0] == [];
  }

  /** The merge loop keeps the bytes, never lengthens the list, and stops with no adjacent pair in the vocabulary. */
  lemma {:induction false} MergingKeepsBytes(v: Tokenizer, toks: seq<nat>)
    requires ValidTokenizer(v) && Known(v, toks)
    ensures var r := Merged(v, toks);
            Spelled(v, r) == Spelled(v, toks) && |r| <= |toks| &&
            forall i | 0 <= i < |r| - 1 :: PairId(v, r, i).None?
    decreases |toks|
  {
    hide PairId, Apply, Spelled;
    match Best(v, toks, Pairs(toks))
    case None =>
    case Some(m) =>
      MergeFits(v, toks, m);
      MergeSpells(v, toks, m);
      MergingKeepsBytes(v, Apply(v, toks, m));
  }

  /** Two best merges are one. */
  lemma BestIsUnique(v: Tokenizer, toks: seq<nat>, n: nat, m: Merge, k: Merge)
    requires ValidTokenizer(v) && Known(v, toks) && n < |toks| && IsBest(v, toks, n, m) && IsBest(v, toks, n, k)
    ensures m == k
  {
    hide Find;
    assert PairId(v, toks, m.at).Some? && PairId(v, toks, k.at).Some?;
  }

  /** The first of the best-scoring pairs is merged, and when no two neighbours make a piece the tokens stay. */
  lemma EachRoundMergesBest(v: Tokenizer, toks: seq<nat>, m: Merge)
    requires ValidTokenizer(v) && Known(v, toks)
    ensures toks != [] && IsBest(v, toks, |toks| - 1, m) ==>
              m.at + 1 < |toks| && m.id < |v.vocab| && Merged(v, toks) == Merged(v, Apply(v, toks, m))
    ensures (forall i | 0 <= i < |toks| - 1 :: v.vocab[toks[i]] + v.vocab[toks[i + 1]] !in v.vocab) ==>
              Merged(v, toks) == toks
  {
    hide Find, PairId, IsBest, Apply;
    var best := Best(v, toks, Pairs(toks));
    if best.Some? { BestPairKnown(v, toks, best.value); }
    if toks != [] && IsBest(v, toks, |toks| - 1, m) {
      BestPairKnown(v, toks, m);
      if best.Some? { BestIsUnique(v, toks, |toks| - 1, m, best.value); }
    }
  }

  /** What a best merge is made of. */
  lemma BestPairKnown(v: Tokenizer, toks: seq<nat>, m: Merge)
    requires ValidTokenizer(v) && Known(v, toks) && toks != [] && IsBest(v, toks, |toks| - 1, m)
    ensures m.at + 1 < |toks| && m.id < |v.vocab| && v.vocab[m.id] == v.vocab[toks[m.at]] + v.vocab[toks[m.at + 1]]
    ensures PairId(v, toks, m.at).Some?
  {
  }

  /** The lookup gives the first piece that equals the bytes, and gives none only when no piece does. */
  lemma {:induction false} FindIsFirst(v: Tokenizer, s: seq<Byte>, k: nat)
    requires k <= |v.vocab|
    ensures FindFrom(v, s, k).Some? ==> forall i | k <= i < FindFrom(v, s, k).value :: v.vocab[i] != s
    decreases |v.vocab| - k
  {
    if k < |v.vocab| && v.vocab[k] != s { FindIsFirst(v, s, k + 1); }
  }

  // ---- vocabularies with a piece for every byte ----------------------------------------------

  /** A piece between angle brackets that holds no other bracket. */
  ghost predicate Bracketed(p: seq<Byte>) {
    && |p| >= 2 && p[0] == 60 && p[|p| - 1] == 62
    && forall i | 0 < i < |p| - 1 :: p[i] != 60 && p[i] != 62
  }

  const UNK: seq<Byte> := [60, 117, 110, 107, 62]
  const START: seq<Byte> := [60, 115, 62]
  const END: seq<Byte> := [60, 47, 115, 62]

  /** The marks `<unk>`, `<s>` and `</s>`, the 256 byte pieces, a space piece, and no other piece with a `<`. */
  ghost predicate ByteComplete(v: Tokenizer) {
    && ValidTokenizer(v) && |v.vocab| >= 259
    && v.vocab[0] == UNK && v.vocab[1] == START && v.vocab[2] == END
    && (forall b | 0 <= b < 256 :: ParseHexByte(v.vocab[b + 3]) == Some(b))
    && (forall i | 259 <= i < |v.vocab| :: 60 !in v.vocab[i])
    && SPACE in v.vocab
  }

  lemma HexBracketed(p: seq<Byte>)
    requires ParseHexByte(p).Some?
    ensures Bracketed(p)
  {
    assert p[..3][0] == p[0] && p[..3][1] == p[1] && p[..3][2] == p[2];
  }

  /** Marks and byte pieces are bracketed. */
  lemma LowBracketed(v: Tokenizer, id: nat)
    requires ByteComplete(v) && id < 259
    ensures Bracketed(v.vocab[id])
  {
    hide ParseHexByte;
    if id >= 3 {
      var b := id - 3;
      assert ParseHexByte(v.vocab[b + 3]) == Some(b);
      HexBracketed(v.vocab[id]);
    }
  }

  /** A piece that does not begin with `<` is an ordinary one. */
  lemma OrdinaryId(v: Tokenizer, id: nat)
    requires ByteComplete(v) && id < |v.vocab| && !Bracketed(v.vocab[id])
    ensures id >= 259
  {
    if id < 259 { LowBracketed(v, id); }
  }

  /** Marks and byte pieces never take part in a merge. */
  lemma OnlyOrdinaryMerge(v: Tokenizer, x: nat, y: nat, id: nat)
    requires ByteComplete(v) && x < |v.vocab| && y < |v.vocab| && id < |v.vocab|
    requires v.vocab[x] != [] && v.vocab[y] != [] && v.vocab[id] == v.vocab[x] + v.vocab[y]
    ensures x >= 259 && y >= 259 && id >= 259
  {
    var a, b := v.vocab[x], v.vocab[y];
    var c := v.vocab[id];
    assert c[0] == a[0] && c[|c| - 1] == b[|b| - 1] && c[|a|] == b[0] && c[|a| - 1] == a[|a| - 1];
    if id < 259 { LowBracketed(v, id); }
    if x < 259 { LowBracketed(v, x); }
    if y < 259 { LowBracketed(v, y); }
    if id >= 259 { assert 60 !in c; }
  }

  // ---- what the tokens of a text stand for ---------------------------------------------------

  /** A byte token or an ordinary piece with something in it. */
  ghost predicate Good(v: Tokenizer, id: nat) { 3 <= id < |v.vocab| && (id >= 259 ==> v.vocab[id] != []) }

  ghost predicate AllGood(v: Tokenizer, toks: seq<nat>) { forall i | 0 <= i < |toks| :: Good(v, toks[i]) }

  ghost function Val(v: Tokenizer, id: nat): (s: seq<Byte>)
    requires Good(v, id)
    ensures s != []
  {
    if id < 259 then [id - 3] else v.vocab[id]
  }

  ghost function Vals(v: Tokenizer, toks: seq<nat>): seq<Byte>
    requires AllGood(v, toks)
  {
    if toks == [] then [] else Vals(v, toks[..|toks| - 1]) + Val(v, toks[|toks| - 1])
  }

  lemma {:induction false} ValsSum(v: Tokenizer, a: seq<nat>, b: seq<nat>)
    requires AllGood(v, a) && AllGood(v, b)
    ensures AllGood(v, a + b) && Vals(v, a + b) == Vals(v, a) + Vals(v, b)
  {
    hide Good, Val;
    if b == [] {
      assert a + b == a;
    } else {
      ValsSum(v, a, b[..|b| - 1]);
      assert (a + b)[..|a + b| - 1] == a + b[..|b| - 1];
    }
  }

  lemma ValsOne(v: Tokenizer, x: nat)
    requires Good(v, x)
    ensures Vals(v, [x]) == Val(v, x)
  {
    assert [x][..0] == [];
  }

  /** The start mark, then an ordinary piece, then good tokens. */
  ghost predicate Shape(v: Tokenizer, toks: seq<nat>) {
    |toks| > 1 && toks[0] == BOS && toks[1] >= 259 && AllGood(v, toks[1..])
  }

  lemma ShapeKnown(v: Tokenizer, toks: seq<nat>)
    requires ByteComplete(v) && Shape(v, toks)
    ensures Known(v, toks) && v.vocab[BOS] != [] && forall i | 0 < i < |toks| :: Good(v, toks[i])
  {
    forall i | 0 < i < |toks| ensures Good(v, toks[i]) { assert toks[1..][i - 1] == toks[i]; }
  }

  lemma GoodPiece(v: Tokenizer, id: nat)
    requires ByteComplete(v) && Good(v, id)
    ensures v.vocab[id] != []
  {
    if id < 259 { LowBracketed(v, id); }
  }

  /** A merge keeps the shape and what the tokens stand for. */
  lemma MergeKeepsShape(v: Tokenizer, toks: seq<nat>, m: Merge)
    requires ByteComplete(v) && Shape(v, toks) && Known(v, toks)
    requires m.at + 1 < |toks| && PairId(v, toks, m.at) == Some(m.id)
    ensures Shape(v, Apply(v, toks, m)) && Vals(v, Apply(v, toks, m)[1..]) == Vals(v, toks[1..])
  {
    hide ByteComplete, Bracketed, Find;
    ShapeKnown(v, toks);
    var at := m.at;
    GoodPiece(v, toks[at + 1]);
    if at > 0 { GoodPiece(v, toks[at]); }
    OnlyOrdinaryMerge(v, toks[at], toks[at + 1], m.id);
    var body := toks[1..];
    assert body == body[..at - 1] + ([toks[at], toks[at + 1]] + body[at + 1..]);
    assert Apply(v, toks, m)[1..] == body[..at - 1] + ([m.id] + body[at + 1..]);
    SpliceVals(v, body[..at - 1], toks[at], toks[at + 1], m.id, body[at + 1..]);
  }

  lemma SpliceVals(v: Tokenizer, a: seq<nat>, x: nat, y: nat, z: nat, c: seq<nat>)
    requires AllGood(v, a) && AllGood(v, c) && Good(v, x) && Good(v, y) && Good(v, z)
    requires Val(v, z) == Val(v, x) + Val(v, y)
    ensures AllGood(v, a + ([x, y] + c)) && AllGood(v, a + ([z] + c))
    ensures Vals(v, a + ([z] + c)) == Vals(v, a + ([x, y] + c))
  {
    hide Good, Val;
    ValsOne(v, x);
    ValsOne(v, y);
    ValsOne(v, z);
    assert [x] + [y] == [x, y];
    ValsSum(v, [x], [y]);
    ValsSum(v, [x, y], c);
    ValsSum(v, [z], c);
    ValsSum(v, a, [x, y] + c);
    ValsSum(v, a, [z] + c);
  }

  lemma {:induction false} MergingKeepsShape(v: Tokenizer, toks: seq<nat>)
    requires ByteComplete(v) && ValidTokenizer(v) && Shape(v, toks) && Known(v, toks)
    ensures Shape(v, Merged(v, toks)) && Vals(v, Merged(v, toks)[1..]) == Vals(v, toks[1..])
    decreases |toks|
  {
    hide PairId, Apply, Shape, ByteComplete, Known;
    match Best(v, toks, Pairs(toks))
    case None =>
    case Some(m) =>
      MergeFits(v, toks, m);
      MergeKeepsShape(v, toks, m);
      MergingKeepsShape(v, Apply(v, toks, m));
  }

  // ---- encoding ------------------------------------------------------------------------------

  lemma Utf8Plain(c: char)
    ensures !Bracketed(Encode(c))
  {
  }

  lemma {:induction false} BytesVals(v: Tokenizer, s: seq<Byte>)
    requires ByteComplete(v)
    ensures AllGood(v, ByteTokens(v, s)) && Vals(v, ByteTokens(v, s)) == s
  {
    hide ByteComplete;
    assert |v.vocab| >= 259 by { Big(v); }
    if s != [] {
      BytesVals(v, s[..|s| - 1]);
      assert ByteTokens(v, s)[..|s| - 1] == ByteTokens(v, s[..|s| - 1]);
    }
  }

  lemma Big(v: Tokenizer)
    requires ByteComplete(v)
    ensures |v.vocab| >= 259 && ValidTokenizer(v) && SPACE in v.vocab
  {
  }

  /** The tokens of a character stand for its bytes. */
  lemma CharVals(v: Tokenizer, c: char)
    requires ByteComplete(v)
    ensures AllGood(v, CharTokens(v, c)) && Vals(v, CharTokens(v, c)) == Encode(c)
  {
    hide ByteComplete, Encode, Bracketed, FindFrom;
    match Find(v, Encode(c))
    case None => BytesVals(v, Encode(c));
    case Some(id) =>
      Utf8Plain(c);
      OrdinaryId(v, id);
      ValsOne(v, id);
  }

  lemma {:induction false} TextVals(v: Tokenizer, text: string)
    requires ByteComplete(v)
    ensures AllGood(v, TextTokens(v, text)) && Vals(v, TextTokens(v, text)) == TextBytes(text)
  {
    hide ByteComplete, CharTokens;
    if text != [] {
      TextVals(v, text[..|text| - 1]);
      CharVals(v, text[|text| - 1]);
      ValsSum(v, TextTokens(v, text[..|text| - 1]), CharTokens(v, text[|text| - 1]));
    }
  }

  lemma StartShape(v: Tokenizer, text: string)
    requires ByteComplete(v) && text != []
    ensures Shape(v, Start(v, text, true)) && Vals(v, Start(v, text, true)[1..]) == SPACE + TextBytes(text)
  {
    hide ByteComplete, TextTokens, TextBytes, FindFrom, Bracketed;
    Big(v);
    var id := Find(v, SPACE).value;
    NotBracketed();
    OrdinaryId(v, id);
    TextVals(v, text);
    ValsOne(v, id);
    ValsSum(v, [id], TextTokens(v, text));
    assert Start(v, text, true)[1..] == [id] + TextTokens(v, text);
  }

  lemma NotBracketed()
    ensures !Bracketed(SPACE)
  {
  }

  // ---- decoding ------------------------------------------------------------------------------

  /** Past the first piece a token decodes to what it stands for. */
  lemma DecodeVal(v: Tokenizer, prev: nat, id: nat)
    requires ByteComplete(v) && Good(v, id) && prev != BOS
    ensures Decode(v, prev, id) == Val(v, id)
  {
    if id < 259 {
      var b := id - 3;
      assert ParseHexByte(v.vocab[b + 3]) == Some(b);
    } else {
      NotHex(v.vocab[id]);
    }
  }

  lemma NotHex(p: seq<Byte>)
    requires 60 !in p
    ensures ParseHexByte(p).None?
  {
    if |p| == 6 { assert p[..3][0] == p[0]; }
  }

  /** Right after the start mark a piece loses its leading space. */
  lemma DecodeFirst(v: Tokenizer, id: nat)
    requires ByteComplete(v) && Good(v, id) && id >= 259 && v.vocab[id][0] == 32
    ensures Decode(v, BOS, id) == v.vocab[id][1..]
  {
    NotHex(v.vocab[id][1..]);
  }

  lemma {:induction false} DecodeVals(v: Tokenizer, toks: seq<nat>)
    requires ByteComplete(v) && Shape(v, toks) && Vals(v, toks[1..])[0..1] == SPACE
    ensures DecodeRun(v, toks) == Vals(v, toks[1..])[1..]
    decreases |toks|
  {
    hide ByteComplete, Decode, Vals, AllGood;
    var n, body := |toks| - 1, toks[1..];
    if n == 1 {
      DecodeOne(v, toks);
    } else {
      var less, id := toks[..n], toks[n];
      DropLast(v, toks);
      DecodeVals(v, less);
      ShapeKnown(v, toks);
      DecodeVal(v, toks[n - 1], id);
      assert less == toks[..|toks| - 1];
    }
  }

  lemma DropLast(v: Tokenizer, toks: seq<nat>)
    requires Shape(v, toks) && |toks| > 2 && Vals(v, toks[1..])[0..1] == SPACE
    ensures var less, id := toks[..|toks| - 1], toks[|toks| - 1];
            Shape(v, less) && Good(v, id) && Vals(v, less[1..]) != [] && Vals(v, less[1..])[0..1] == SPACE
            && Vals(v, toks[1..])[1..] == Vals(v, less[1..])[1..] + Val(v, id)
  {
    hide Good, Val;
    var n, body := |toks| - 1, toks[1..];
    var less := toks[..n];
    assert less[1..] == body[..n - 1] && body[n - 1] == toks[n];
    FirstVal(v, less[1..]);
  }

  lemma DecodeOne(v: Tokenizer, toks: seq<nat>)
    requires ByteComplete(v) && Shape(v, toks) && |toks| == 2 && Vals(v, toks[1..])[0..1] == SPACE
    ensures DecodeRun(v, toks) == Vals(v, toks[1..])[1..]
  {
    hide ByteComplete, Decode;
    var id := toks[1];
    assert toks[1..] == [id] && toks[1..][0] == id;
    ValsOne(v, id);
    assert v.vocab[id][0] == v.vocab[id][0..1][0];
    DecodeFirst(v, id);
    assert DecodeRun(v, toks[..1]) == [];
  }

  lemma FirstVal(v: Tokenizer, toks: seq<nat>)
    requires AllGood(v, toks) && toks != []
    ensures Vals(v, toks) != []
  {
  }

  /** Decoding the encoding of a text, piece by piece from the start mark, gives back its bytes. */
  lemma EncodingIsLossless(v: Tokenizer, text: string)
    requires ByteComplete(v)
    ensures DecodeRun(v, Encoded(v, text, true, false)) == TextBytes(text)
  {
    hide ByteComplete, Shape, Vals, Merged, TextBytes, DecodeRun, AllGood;
    Big(v);
    StartKnown(v, text, true);
    var start := Start(v, text, true);
    if text == [] {
      EmptyText(v);
    } else {
      StartShape(v, text);
      MergingKeepsShape(v, start);
      var r := Merged(v, start);
      assert (SPACE + TextBytes(text))[0..1] == SPACE && (SPACE + TextBytes(text))[1..] == TextBytes(text);
      DecodeVals(v, r);
      assert Encoded(v, text, true, false) == r;
    }
  }

  lemma EmptyText(v: Tokenizer)
    requires ValidTokenizer(v)
    ensures DecodeRun(v, Encoded(v, [], true, false)) == TextBytes([])
  {
    StartKnown(v, [], true);
    assert Start(v, [], true) == [BOS];
    assert Encoded(v, [], true, false) == [BOS];
  }

  // ---- what a text is broken into ------------------------------------------------------------

  /** Before merging: the start mark 1 if asked for, then, before any text, the piece of a single space if there is one. */
  lemma TextOpens(v: Tokenizer, text: string)
    requires ValidTokenizer(v)
    ensures Start(v, [], true) == [1] && Start(v, [], false) == [] && Start(v, text, true) == [1] + Start(v, text, false)
    ensures text != [] && [32] in v.vocab ==> Head(v, text, false) != [] && Start(v, text, false)[0] < |v.vocab|
    ensures text != [] && [32] in v.vocab ==> v.vocab[Start(v, text, false)[0]] == [32]
    ensures [32] !in v.vocab ==> Start(v, text, false) == TextTokens(v, text)
  {
    hide CharTokens, FindFrom;
  }

  /** One character more adds its tokens. */
  lemma TextGrows(v: Tokenizer, text: string, c: char)
    ensures TextTokens(v, text + [c]) == TextTokens(v, text) + CharTokens(v, c)
  {
    hide CharTokens;
    assert (text + [c])[..|text|] == text;
  }

  /**
   A character is its own piece, or without one a token three above each of its bytes, and the unknown token 0 where
   the vocabulary has no such token.
   */
  lemma CharacterIs(v: Tokenizer, c: char, i: nat)
    requires i < |Encode(c)|
    ensures var b, r := Encode(c), CharTokens(v, c);
            && (b in v.vocab ==> |r| == 1 && r[0] < |v.vocab| && v.vocab[r[0]] == b)
            && (b !in v.vocab ==> |r| == |b| && r[i] == if b[i] + 3 < |v.vocab| then b[i] + 3 else 0)
  {
    hide FindFrom, Encode;
  }

  /** The character of a hexadecimal digit. */
  function HexLetter(d: nat, upper: bool): (c: Byte)
    requires d < 16
  {
    if d < 10 then 48 + d else if upper then 65 + (d - 10) else 97 + (d - 10)
  }

  lemma HexLetterIs(d: nat, upper: bool)
    requires d < 16
    ensures HexVal(HexLetter(d, upper)) == Some(d)
  {
  }

  /** `<0x`, two hexadecimal digits of either case and `>` stand for the byte they spell. */
  lemma HexPieceIs(hi: nat, lo: nat, upper: bool)
    requires hi < 16 && lo < 16
    ensures ParseHexByte([60, 48, 120, HexLetter(hi, upper), HexLetter(lo, upper), 62]) == Some(16 * hi + lo)
  {
    hide HexVal, HexLetter;
    HexLetterIs(hi, upper);
    HexLetterIs(lo, upper);
  }
}
