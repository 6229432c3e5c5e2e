/** The Internet checksum (section 1 of RFC 1071): one's-complement sums of big-endian 16-bit words. */
module Checksum {
  import opened Bytes

  function Be16(n: nat): (s: seq<Byte>)
    ensures |s| == 2
  {
    [n / 256 % 256, n % 256]
  }

  /** The big-endian word at an offset. */
  function Word(s: seq<Byte>, at: nat): (w: nat)
    requires at + 2 <= |s|
    ensures w < 65536
  {
    var hi: nat, lo: nat := s[at], s[at + 1];
    hi * 256 + lo
  }

  /** The sum of the first `k` words. */
  function WordSum(s: seq<Byte>, k: nat): nat
    requires 2 * k <= |s|
  {
    if k == 0 then 0 else WordSum(s, k - 1) + Word(s, 2 * k - 2)
  }

  /** The sum of all words, an odd last byte counting as the high half of one. */
  function Sum(s: seq<Byte>): nat {
    WordSum(s, |s| / 2) + LastByte(s)
  }

  function LastByte(s: seq<Byte>): nat {
    if |s| % 2 == 1 then
      var b: nat := s[|s| - 1];
      b * 256
    else 0
  }

  /** Fold the carries back in until 16 bits are left. */
  function Fold(sum: nat): (r: nat)
    ensures r < 65536 && r <= sum && (r == 0 <==> sum == 0)
  {
    if sum < 65536 then sum else Fold(sum % 65536 + sum / 65536)
  }

  function Finished(sum: nat): (c: nat)
    ensures c < 65536
  {
    65535 - Fold(sum)
  }

  function ChecksumOf(s: seq<Byte>): (c: nat)
    ensures c < 65536
  {
    Finished(Sum(s))
  }

  // ---- the loops -----------------------------------------------------------------------------

  method Sum16(s: seq<Byte>, start: nat) returns (sum: nat)
    ensures sum == start + Sum(s)
  {
    sum := start;
    var i := 0;
    while i + 1 < |s|
      invariant 0 <= i <= |s| && i % 2 == 0 && sum == start + WordSum(s, i / 2)
    {
      sum := sum + Word(s, i);
      i := i + 2;
    }
    if i < |s| {
      var b: nat := s[i];
      sum := sum + b * 256;
    }
  }

  method Finish(start: nat) returns (c: nat)
    ensures c == Finished(start)
  {
    var sum := start;
    while sum >= 65536
      invariant Fold(sum) == Fold(start)
      decreases sum
    {
      sum := sum % 65536 + sum / 65536;
    }
    c := 65535 - sum;
  }

  method Checksum(s: seq<Byte>) returns (c: nat)
    ensures c == ChecksumOf(s)
  {
    var sum := Sum16(s, 0);
    c := Finish(sum);
  }

  // ---- arithmetic modulo 2^16 - 1 ------------------------------------------------------------

  /** Folding keeps the sum modulo 65535. */
  lemma {:induction false} FoldMod(sum: nat)
    ensures Fold(sum) % 65535 == sum % 65535
  {
    if sum >= 65536 {
      FoldMod(sum % 65536 + sum / 65536);
      OneFold(sum, sum / 65536, sum % 65536);
    }
  }

  lemma OneFold(sum: nat, hi: nat, lo: nat)
    requires sum == hi * 65536 + lo
    ensures (lo + hi) % 65535 == sum % 65535
  {
    assert sum == (lo + hi) + hi * 65535;
    AddMultiple(lo + hi, hi);
  }

  lemma AddMultiple(a: nat, k: nat)
    ensures (a + k * 65535) % 65535 == a % 65535
  {
  }

  /** A sum that includes its own checksum folds to all ones. */
  lemma SumsToZero(sum: nat)
    ensures Finished(sum + Finished(sum)) == 0
  {
    hide Fold;
    var c, total := Finished(sum), sum + Finished(sum);
    FoldMod(sum);
    FoldMod(total);
    Residue(sum, Fold(sum), Fold(total));
  }

  lemma Residue(sum: nat, folded: nat, total: nat)
    requires folded < 65536 && folded <= sum && folded % 65535 == sum % 65535
    requires total < 65536 && total % 65535 == (sum + (65535 - folded)) % 65535 && total > 0
    ensures total == 65535
  {
    var d := sum - folded;
    SameResidue(sum, folded);
    assert sum + (65535 - folded) == (d / 65535 + 1) * 65535;
    AddMultiple(0, d / 65535 + 1);
  }

  lemma SameResidue(a: nat, b: nat)
    requires b <= a && a % 65535 == b % 65535
    ensures (a - b) % 65535 == 0
  {
    assert a == a / 65535 * 65535 + a % 65535 && b == b / 65535 * 65535 + b % 65535;
    assert a - b == (a / 65535 - b / 65535) * 65535;
    if a / 65535 < b / 65535 { assert false; }
    AddMultiple(0, a / 65535 - b / 65535);
  }

  // ---- sums of parts -------------------------------------------------------------------------

  lemma {:induction false} WordSumOfPart(a: seq<Byte>, b: seq<Byte>, k: nat)
    requires |a| % 2 == 0 && 2 * k <= |b|
    ensures WordSum(a + b, |a| / 2 + k) == WordSum(a, |a| / 2) + WordSum(b, k)
  {
    var s := a + b;
    if k > 0 {
      WordSumOfPart(a, b, k - 1);
      assert s[2 * (|a| / 2 + k) - 2] == b[2 * k - 2] && s[2 * (|a| / 2 + k) - 1] == b[2 * k - 1];
    } else {
      WordSumOfPrefix(a, b, |a| / 2);
    }
  }

  lemma {:induction false} WordSumOfPrefix(a: seq<Byte>, b: seq<Byte>, k: nat)
    requires 2 * k <= |a|
    ensures WordSum(a + b, k) == WordSum(a, k)
  {
    if k > 0 { WordSumOfPrefix(a, b, k - 1); }
  }

  /** Sums add up over parts that begin at even offsets. */
  lemma SumOfParts(a: seq<Byte>, b: seq<Byte>)
    requires |a| % 2 == 0
    ensures Sum(a + b) == Sum(a) + Sum(b)
  {
    WordSumOfPart(a, b, |b| / 2);
  }

  /** For as many bytes as a packet may have, no 32-bit accumulator overflows, even with a pseudo-header in it. */
  lemma SumFits(s: seq<Byte>)
    requires |s| <= 65535
    ensures Sum(s) < WORD / 2
  {
    WordSumFits(s, |s| / 2);
  }

  lemma {:induction false} WordSumFits(s: seq<Byte>, k: nat)
    requires 2 * k <= |s|
    ensures WordSum(s, k) <= k * 65535
  {
    if k > 0 { WordSumFits(s, k - 1); }
  }

  // ---- a checksum in its field ---------------------------------------------------------------

  /** Overwrite the bytes at an offset. */
  function Patch(s: seq<Byte>, at: nat, b: seq<Byte>): (r: seq<Byte>)
    requires at + |b| <= |s|
    ensures |r| == |s|
  {
    s[..at] + b + s[at + |b|..]
  }

  function Blank(s: seq<Byte>, at: nat): (r: seq<Byte>)
    requires at + 2 <= |s|
    ensures |r| == |s|
  {
    Patch(s, at, [0, 0])
  }

  /** `s` with the field at `at` holding what makes `s` and `extra` sum to zero. */
  function Sealed(s: seq<Byte>, at: nat, extra: nat): (r: seq<Byte>)
    requires at + 2 <= |s|
    ensures |r| == |s|
  {
    Patch(s, at, Be16(Finished(extra + Sum(Blank(s, at)))))
  }

  lemma SumOfField(s: seq<Byte>, at: nat, c: nat)
    requires at + 2 <= |s| && at % 2 == 0 && c < 65536
    ensures Sum(Patch(s, at, Be16(c))) == Sum(Blank(s, at)) + c
  {
    hide Sum;
    var a, b := s[..at], s[at + 2..];
    assert Patch(s, at, Be16(c)) == a + (Be16(c) + b) && Blank(s, at) == a + ([0, 0] + b);
    SumOfParts(a, Be16(c) + b);
    SumOfParts(Be16(c), b);
    SumOfParts(a, [0, 0] + b);
    SumOfParts([0, 0], b);
    TwoBytes(c);
  }

  lemma TwoBytes(c: nat)
    requires c < 65536
    ensures Sum(Be16(c)) == c && Sum([0, 0]) == 0
  {
    var zeros: seq<Byte> := [0, 0];
    assert WordSum(Be16(c), 1) == WordSum(Be16(c), 0) + Word(Be16(c), 0);
    assert WordSum(zeros, 1) == WordSum(zeros, 0) + Word(zeros, 0);
  }

  /** A sealed packet verifies: summed with what was outside it, it comes to zero. */
  lemma SealedVerifies(s: seq<Byte>, at: nat, extra: nat)
    requires at + 2 <= |s| && at % 2 == 0
    ensures Finished(extra + Sum(Sealed(s, at, extra))) == 0
  {
    hide Sum, Patch;
    var sum := extra + Sum(Blank(s, at));
    SumOfField(s, at, Finished(sum));
    SumsToZero(sum);
  }

  /** Sealing does not depend on what the field held before. */
  lemma SealedAgain(s: seq<Byte>, t: seq<Byte>, at: nat, extra: nat)
    requires at + 2 <= |s| && |s| == |t| && Blank(s, at) == Blank(t, at)
    ensures Sealed(s, at, extra) == Sealed(t, at, extra)
  {
    hide Sum;
    assert Blank(s, at)[..at] == s[..at] && Blank(t, at)[..at] == t[..at];
    assert Blank(s, at)[at + 2..] == s[at + 2..] && Blank(t, at)[at + 2..] == t[at + 2..];
  }

  /** Sealing changes nothing but the field. */
  lemma SealedElsewhere(s: seq<Byte>, at: nat, extra: nat)
    requires at + 2 <= |s|
    ensures forall i | 0 <= i < |s| && i != at && i != at + 1 :: Sealed(s, at, extra)[i] == s[i]
  {
    hide Sum, Finished;
  }
}
