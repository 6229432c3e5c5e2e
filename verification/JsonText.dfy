/**
 What a string literal stands for (section 7 of RFC 8259), apart from the scanner: plain characters, one-letter
 escapes and hex escapes, where two of the latter may be the halves of one character.
 */
module JsonText {
  import opened Values
  import opened Json
  import opened JsonDoc

  datatype Piece = Plain(c: char) | Short(e: char) | Hex(h: string)

  // ---- the tables of the grammar, by code point ----------------------------------------------

  /** The eight letters that may follow a backslash, and what they stand for. */
  function ShortFor(e: char): Option<int> {
    match e as int
    case 0x22 => Some(0x22)
    case 0x5C => Some(0x5C)
    case 0x2F => Some(0x2F)
    case 0x62 => Some(0x08)
    case 0x66 => Some(0x0C)
    case 0x6E => Some(0x0A)
    case 0x72 => Some(0x0D)
    case 0x74 => Some(0x09)
    case _ => None
  }

  /** A hex digit of either case. */
  function Nibble(c: char): Option<nat> {
    var n := c as int;
    if 0x30 <= n <= 0x39 then Some(n - 0x30)
    else if 0x41 <= n <= 0x46 then Some(n - 0x37)
    else if 0x61 <= n <= 0x66 then Some(n - 0x57)
    else None
  }

  predicate IsHex(h: string) { |h| == 4 && forall i | 0 <= i < 4 :: Nibble(h[i]).Some? }

  function HexCode(h: string): (v: nat)
    requires IsHex(h)
    ensures v < 0x1_0000
  {
    Nibble(h[0]).value * 4096 + Nibble(h[1]).value * 256 + Nibble(h[2]).value * 16 + Nibble(h[3]).value
  }

  /** Space, tab, line feed and carriage return are white space, and nothing else is. */
  lemma WhiteSpaceIs(c: char)
    ensures IsWs(c) <==> c as int == 0x20 || c as int == 0x09 || c as int == 0x0A || c as int == 0x0D
  {
  }

  /** The scanner knows the same short escapes, and no ninth. */
  lemma ShortIs(e: char)
    ensures ShortFor(e).Some? <==> ShortEscape(e).Some?
    ensures ShortFor(e).Some? ==> ShortEscape(e).value as int == ShortFor(e).value
  {
  }

  /** A backslash before any other letter but `u` is an error. */
  lemma NoNinthLetter(b: string, p: nat, out: string)
    requires p + 1 < |b| && b[p] == '\\' && ShortFor(b[p + 1]).None? && b[p + 1] != 'u'
    ensures UnquoteAt(b, p, out) == Fault(JsonBadEscape)
  {
    ShortIs(b[p + 1]);
  }

  lemma NibbleIs(c: char)
    ensures Nibble(c) == HexDigit(c)
  {
  }

  /** The scanner reads four hex digits, of either case, as their number, and nothing else. */
  lemma HexIs(h: string)
    requires |h| == 4
    ensures HexValue(h).Some? <==> IsHex(h)
    ensures IsHex(h) ==> HexValue(h).value == HexCode(h)
  {
    hide Nibble, HexDigit;
    assert h[..3][..2] == h[..2] && h[..2][..1] == h[..1] && h[..1][..0] == [];
    NibbleIs(h[0]);
    NibbleIs(h[1]);
    NibbleIs(h[2]);
    NibbleIs(h[3]);
    assert HexValue(h[..1]) == Nibble(h[0]);
    assert HexValue(h[..2]).Some? <==> Nibble(h[0]).Some? && Nibble(h[1]).Some?;
    assert HexValue(h[..3]).Some? <==> Nibble(h[0]).Some? && Nibble(h[1]).Some? && Nibble(h[2]).Some?;
  }

  // ---- literals ------------------------------------------------------------------------------

  predicate IsPiece(p: Piece) {
    match p
    case Plain(c) => c as int != 0x22 && c as int != 0x5C
    case Short(e) => ShortFor(e).Some?
    case Hex(h) => IsHex(h)
  }

  ghost predicate Pieces(ps: seq<Piece>) { forall i | 0 <= i < |ps| :: IsPiece(ps[i]) }

  function Spelt(p: Piece): string {
    match p
    case Plain(c) => [c]
    case Short(e) => ['\\', e]
    case Hex(h) => ['\\', 'u'] + h
  }

  function Inside(ps: seq<Piece>): string { if ps == [] then [] else Spelt(ps[0]) + Inside(ps[1..]) }

  /** The pieces in quotes. */
  function Literal(ps: seq<Piece>): string { "\"" + (Inside(ps) + "\"") }

  // ---- what it stands for --------------------------------------------------------------------

  function HexOf(p: Piece): (v: nat)
    requires IsPiece(p) && p.Hex?
    ensures v < 0x1_0000
  {
    HexCode(p.h)
  }

  predicate IsHigh(p: Piece)
    requires IsPiece(p)
  {
    p.Hex? && 0xD800 <= HexOf(p) < 0xDC00
  }

  predicate IsLow(p: Piece)
    requires IsPiece(p)
  {
    p.Hex? && 0xDC00 <= HexOf(p) < 0xE000
  }

  /** What one piece stands for by itself; half a character becomes U+FFFD. */
  function Single(p: Piece): char
    requires IsPiece(p)
  {
    match p
    case Plain(c) => c
    case Short(e) => ShortFor(e).value as char
    case Hex(_) => if 0xD800 <= HexOf(p) <= 0xDFFF then '\U{FFFD}' else HexOf(p) as char
  }

  /** The character of two halves. */
  function Paired(p: Piece, q: Piece): char
    requires IsPiece(p) && IsPiece(q) && IsHigh(p) && IsLow(q)
  {
    (0x10000 + (HexOf(p) - 0xD800) * 0x400 + (HexOf(q) - 0xDC00)) as char
  }

  predicate PairAt(ps: seq<Piece>, i: nat)
    requires Pieces(ps)
  {
    i + 1 < |ps| && IsHigh(ps[i]) && IsLow(ps[i + 1])
  }

  ghost predicate NoPair(ps: seq<Piece>)
    requires Pieces(ps)
  {
    forall i: nat | i < |ps| :: !PairAt(ps, i)
  }

  function StandsFor(ps: seq<Piece>): string
    requires Pieces(ps)
  {
    if ps == [] then []
    else if PairAt(ps, 0) then [Paired(ps[0], ps[1])] + StandsFor(ps[2..])
    else [Single(ps[0])] + StandsFor(ps[1..])
  }

  function Singles(ps: seq<Piece>): (t: string)
    requires Pieces(ps)
    ensures |t| == |ps|
  {
    if ps == [] then [] else [Single(ps[0])] + Singles(ps[1..])
  }

  // ---- what the scanner makes of it ----------------------------------------------------------

  /** One piece of a literal, at `p`. */
  lemma PieceScans(b: string, p: nat, out: string, x: Piece)
    requires IsPiece(x) && p + |Spelt(x)| < |b| && b[p..p + |Spelt(x)|] == Spelt(x)
    ensures UnquoteAt(b, p, out) == UnquoteAt(b, p + |Spelt(x)|, out + [Single(x)])
  {
    hide HexValue, ShortEscape, ScalarOf, ShortFor, Nibble, HexCode;
    var t := b[p..p + |Spelt(x)|];
    match x
    case Plain(c) => assert b[p] == t[0] == c;
    case Short(e) =>
      assert b[p] == t[0] == '\\' && b[p + 1] == t[1] == e;
      ShortIs(e);
      NoShortU();
    case Hex(h) =>
      HexIs(h);
      ScalarIs(HexCode(h));
      assert b[p] == t[0] == '\\' && b[p + 1] == t[1] == 'u';
      assert b[p + 2..p + 6] == t[2..] == h;
      BytesCover(b[p + 2..]);
  }

  lemma NoShortU()
    ensures ShortEscape('u') == None && ShortFor('u') == None
  {
  }

  lemma ScalarIs(v: nat)
    requires v < 0x1_0000
    ensures ScalarOf(v) == if 0xD800 <= v <= 0xDFFF then '\U{FFFD}' else v as char
  {
  }

  lemma {:induction false} InsideScans(b: string, p: nat, out: string, ps: seq<Piece>)
    requires Pieces(ps) && p + |Inside(ps)| < |b| && b[p..p + |Inside(ps)|] == Inside(ps) && b[p + |Inside(ps)|] == '"'
    ensures UnquoteAt(b, p, out) == Ok(Unquoted(out + Singles(ps), p + |Inside(ps)| + 1))
    decreases |ps|
  {
    hide IsPiece, Single, Spelt, UnquoteAt;
    if ps == [] {
      QuoteEnds(b, p, out);
      assert out + [] == out;
    } else {
      var x, rest := ps[0], ps[1..];
      var n := |Spelt(x)|;
      var t := b[p..p + |Inside(ps)|];
      assert b[p..p + n] == t[..n] == Spelt(x);
      assert b[p + n..p + n + |Inside(rest)|] == t[n..] == Inside(rest);
      PieceScans(b, p, out, x);
      InsideScans(b, p + n, out + [Single(x)], rest);
      assert (out + [Single(x)]) + Singles(rest) == out + Singles(ps);
    }
  }

  lemma QuoteEnds(b: string, p: nat, out: string)
    requires p < |b| && b[p] == '"'
    ensures UnquoteAt(b, p, out) == Ok(Unquoted(out, p + 1))
  {
  }

  /** The scanner takes every such literal, and reads it piece by piece. */
  lemma LiteralScans(ps: seq<Piece>)
    requires Pieces(ps)
    ensures IsLiteral(Literal(ps)) && LiteralText(Literal(ps)) == Singles(ps)
  {
    hide Inside, Singles, UnquoteAt;
    var b := Literal(ps);
    assert b[1..1 + |Inside(ps)|] == Inside(ps);
    InsideScans(b, 1, "", ps);
    assert [] + Singles(ps) == Singles(ps);
  }

  /** And it takes no others. */
  lemma LiteralIsPieces(raw: string) returns (ps: seq<Piece>)
    requires IsLiteral(raw)
    ensures Pieces(ps) && raw == Literal(ps)
  {
    hide UnquoteAt, Inside;
    ps := InsideIsPieces(raw, 1, "");
    assert raw == [raw[0]] + raw[1..];
  }

  lemma {:induction false} InsideIsPieces(b: string, p: nat, out: string) returns (ps: seq<Piece>)
    requires p <= |b| && UnquoteAt(b, p, out).Ok? && UnquoteAt(b, p, out).value.end == |b|
    ensures Pieces(ps) && b[p..] == Inside(ps) + "\""
    decreases |b| - p
  {
    hide HexValue, ShortEscape, ScalarOf, Inside, ByteLen, ShortFor, IsHex, HexCode;
    if b[p] == '"' {
      ps := [];
      NothingInside();
      assert b[p..] == "\"";
    } else {
      var x, n;
      if b[p] != '\\' {
        x, n := Plain(b[p]), 1;
      } else if b[p + 1] == 'u' {
        HexInside(b, p + 2);
        HexIs(b[p + 2..p + 6]);
        ScalarIs(HexCode(b[p + 2..p + 6]));
        x, n := Hex(b[p + 2..p + 6]), 6;
        assert b[p..p + 6] == ['\\', 'u'] + b[p + 2..p + 6];
      } else {
        ShortIs(b[p + 1]);
        x, n := Short(b[p + 1]), 2;
        assert b[p..p + 2] == ['\\', b[p + 1]];
      }
      var rest := InsideIsPieces(b, p + n, out + [Single(x)]);
      ps := [x] + rest;
      OneMoreInside(x, rest);
      assert b[p..] == b[p..p + n] + b[p + n..];
      assert Spelt(x) + (Inside(rest) + "\"") == (Spelt(x) + Inside(rest)) + "\"";
    }
  }

  lemma HexInside(b: string, p: nat)
    requires p <= |b| && Hex4At(b, p).Ok?
    ensures p + 4 <= |b| && HexValue(b[p..p + 4]) == Some(Hex4At(b, p).value)
  {
    hide HexValue;
  }

  lemma NothingInside()
    ensures Inside([]) == []
  {
  }

  lemma OneMoreInside(x: Piece, rest: seq<Piece>)
    ensures Inside([x] + rest) == Spelt(x) + Inside(rest)
  {
    assert ([x] + rest)[1..] == rest;
  }

  // ---- when the two agree --------------------------------------------------------------------

  lemma TailPairs(ps: seq<Piece>)
    requires Pieces(ps) && ps != [] && !PairAt(ps, 0)
    ensures Pieces(ps[1..]) && (NoPair(ps) <==> NoPair(ps[1..]))
  {
    hide IsPiece, IsHigh, IsLow;
    var tail := ps[1..];
    if NoPair(tail) {
      forall i: nat | i < |ps| ensures !PairAt(ps, i) { if i > 0 { assert !PairAt(tail, i - 1); } }
    }
    if NoPair(ps) {
      forall i: nat | i < |tail| ensures !PairAt(tail, i) { assert !PairAt(ps, i + 1); }
    }
  }

  lemma {:induction false} StandsExactly(ps: seq<Piece>)
    requires Pieces(ps)
    ensures |StandsFor(ps)| <= |ps|
    ensures NoPair(ps) ==> StandsFor(ps) == Singles(ps)
    ensures !NoPair(ps) ==> |StandsFor(ps)| < |ps|
    decreases |ps|
  {
    hide IsPiece, Single, Paired, PairAt;
    if ps != [] {
      if PairAt(ps, 0) {
        PairFits(ps);
        StandsExactly(ps[2..]);
      } else {
        TailPairs(ps);
        StandsExactly(ps[1..]);
      }
    }
  }

  lemma PairFits(ps: seq<Piece>)
    requires Pieces(ps) && PairAt(ps, 0)
    ensures |ps| >= 2 && Pieces(ps[2..])
  {
    hide IsPiece, IsHigh, IsLow;
  }

  /**
   The scanner reads a literal as the text it stands for exactly when no character is written as two escaped
   halves; it reads such a character as two U+FFFD.
   */
  lemma ReadsExactly(ps: seq<Piece>)
    requires Pieces(ps)
    ensures IsLiteral(Literal(ps))
    ensures LiteralText(Literal(ps)) == StandsFor(ps) <==> NoPair(ps)
  {
    hide IsLiteral, LiteralText, Literal, StandsFor, Singles, PairAt;
    LiteralScans(ps);
    StandsExactly(ps);
  }
}
