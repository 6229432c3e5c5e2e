/** UTF-8 (section 3 of RFC 3629): encoding text, and decoding the longest valid prefix of some bytes. */
module Utf8 {
  import opened Bytes
  import opened Values

  function Encode(c: char): (s: seq<Byte>)
    ensures 0 < |s| <= 4
  {
    var n := c as int;
    if n < 0x80 then [n]
    else if n < 0x800 then [0xC0 + n / 64, 0x80 + n % 64]
    else if n < 0x10000 then [0xE0 + n / 4096, 0x80 + n / 64 % 64, 0x80 + n % 64]
    else [0xF0 + n / 262144, 0x80 + n / 4096 % 64, 0x80 + n / 64 % 64, 0x80 + n % 64]
  }

  function TextBytes(text: string): seq<Byte> {
    if text == [] then [] else TextBytes(text[..|text| - 1]) + Encode(text[|text| - 1])
  }

  lemma {:induction false} BytesFromFront(text: string)
    requires text != []
    ensures TextBytes(text) == Encode(text[0]) + TextBytes(text[1..])
  {
    hide Encode;
    if |text| == 1 {
      assert text[..0] == [] && text[1..] == [];
    } else {
      var front := text[..|text| - 1];
      BytesFromFront(front);
      assert front[1..] == text[1..][..|text[1..]| - 1];
    }
  }

  /** How many bytes a lead byte announces; none for a byte that cannot lead. */
  function Announced(b: Byte): nat {
    if b < 0x80 then 1 else if b < 0xC0 then 0 else if b < 0xE0 then 2 else if b < 0xF0 then 3 else if b < 0xF8 then 4 else 0
  }

  /** The number in the payload bits of a sequence. */
  function Payload(b: seq<Byte>): int
    requires 0 < |b| <= 4
  {
    var n: int, x: int, y: int, z: int :=
      b[0], (if |b| > 1 then b[1] else 0x80), (if |b| > 2 then b[2] else 0x80), (if |b| > 3 then b[3] else 0x80);
    if |b| == 1 then n
    else if |b| == 2 then (n - 0xC0) * 64 + (x - 0x80)
    else if |b| == 3 then (n - 0xE0) * 4096 + (x - 0x80) * 64 + (y - 0x80)
    else (n - 0xF0) * 262144 + (x - 0x80) * 4096 + (y - 0x80) * 64 + (z - 0x80)
  }

  predicate IsScalar(v: int) { 0 <= v < 0xD800 || 0xE000 <= v < 0x11_0000 }

  /** The character the bytes begin with, if they begin with the encoding of one: no overlong form, no surrogate. */
  function DecodeFirst(b: seq<Byte>): (r: Option<char>)
    requires b != []
    ensures r.Some? ==> Encode(r.value) <= b
  {
    var k := Announced(b[0]);
    if k == 0 || k > |b| then None
    else
      var v := Payload(b[..k]);
      if IsScalar(v) && Encode(v as char) == b[..k] then Some(v as char) else None
  }

  /** The text of the longest valid prefix. */
  function ValidPrefix(b: seq<Byte>): (text: string)
    decreases |b|
  {
    if b == [] then []
    else
      match DecodeFirst(b)
      case None => []
      case Some(c) => [c] + ValidPrefix(b[|Encode(c)|..])
  }

  lemma EncodeShape(c: char)
    ensures Announced(Encode(c)[0]) == |Encode(c)| && Payload(Encode(c)) == c as int
  {
    var n, e := c as int, Encode(c);
    assert n < 0x11_0000 by { Scalars(c); }
    Digits64(n);
    if n >= 0x10000 {
      assert Announced(e[0]) == 4;
    } else if n >= 0x800 {
      assert Announced(e[0]) == 3;
    }
  }

  lemma Digits64(n: nat)
    requires n < 0x11_0000
    ensures n / 64 * 64 + n % 64 == n
    ensures n / 4096 * 4096 + n / 64 % 64 * 64 + n % 64 == n
    ensures n / 262144 * 262144 + n / 4096 % 64 * 4096 + n / 64 % 64 * 64 + n % 64 == n
    ensures n / 262144 < 5 && (n < 0x10000 ==> n / 4096 < 16) && (n < 0x800 ==> n / 64 < 32)
    ensures n >= 0x80 ==> n / 64 >= 2
  {
  }

  /** An encoded character decodes, whatever follows. */
  lemma DecodesEncoded(c: char, rest: seq<Byte>)
    ensures DecodeFirst(Encode(c) + rest) == Some(c)
  {
    hide Encode, Payload, Announced;
    EncodeShape(c);
    assert (Encode(c) + rest)[..|Encode(c)|] == Encode(c);
    assert IsScalar(c as int) by { Scalars(c); }
  }

  lemma Scalars(c: char)
    ensures IsScalar(c as int)
  {
  }

  lemma {:induction false} EncodedIsValid(text: string)
    ensures ValidPrefix(TextBytes(text)) == text
  {
    hide Encode, DecodeFirst, TextBytes;
    if text == [] {
      NoBytes();
    } else {
      var c, tail := text[0], TextBytes(text[1..]);
      BytesFromFront(text);
      DecodesEncoded(c, tail);
      EncodedIsValid(text[1..]);
      assert (Encode(c) + tail)[|Encode(c)|..] == tail;
    }
  }

  lemma NoBytes()
    ensures TextBytes([]) == []
  {
  }

  /** More bytes only add to the text. */
  lemma {:induction false} PrefixGrows(b: seq<Byte>, ext: seq<Byte>)
    ensures ValidPrefix(b) <= ValidPrefix(b + ext)
    decreases |b|
  {
    hide Encode, DecodeFirst;
    if b != [] && DecodeFirst(b).Some? {
      var c := DecodeFirst(b).value;
      var e := Encode(c);
      var tail := b[|e|..];
      assert b == e + tail;
      assert b + ext == e + (tail + ext);
      DecodesEncoded(c, tail + ext);
      PrefixGrows(tail, ext);
      assert (e + (tail + ext))[|e|..] == tail + ext;
    }
  }

  /** The length of a text in bytes is the number of bytes it is encoded in. */
  lemma {:induction false} BytesCounted(text: string)
    ensures |TextBytes(text)| == ByteLen(text)
  {
    hide Encode;
    if text != [] {
      BytesFromFront(text);
      BytesCounted(text[1..]);
      CharBytesCounted(text[0]);
    }
  }

  lemma CharBytesCounted(c: char)
    ensures |Encode(c)| == Utf8Len(c)
  {
  }
}
