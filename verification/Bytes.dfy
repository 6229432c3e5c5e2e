/** Bytes and little-endian words. */
module Bytes {

  type Byte = b: nat | b < 256

  const WORD := 0x1_0000_0000

  /** The four bytes of a 32-bit word, the least significant first; a negative number is taken modulo 2^32. */
  function Le32(n: int): (s: seq<Byte>)
    ensures |s| == 4
  {
    var w := n % WORD;
    [w % 256, w / 256 % 256, w / 65536 % 256, w / 16777216 % 256]
  }

  function U32At(s: seq<Byte>, at: nat): (n: nat)
    requires at + 4 <= |s|
    ensures n < WORD
  {
    var a: nat, b: nat, c: nat, d: nat := s[at], s[at + 1], s[at + 2], s[at + 3];
    a + b * 256 + c * 65536 + d * 16777216
  }

  function I32At(s: seq<Byte>, at: nat): (n: int)
    requires at + 4 <= |s|
  {
    var w := U32At(s, at);
    if w < WORD / 2 then w else w - WORD
  }

  lemma ReadsBack(s: seq<Byte>, at: nat, n: int)
    requires at + 4 <= |s| && s[at..at + 4] == Le32(n)
    ensures 0 <= n < WORD ==> U32At(s, at) == n
    ensures -WORD / 2 <= n < WORD / 2 ==> I32At(s, at) == n
  {
    var b := s[at..at + 4];
    assert b[0] == s[at] && b[1] == s[at + 1] && b[2] == s[at + 2] && b[3] == s[at + 3];
    FourBytes(n % WORD);
  }

  lemma FourBytes(w: nat)
    requires w < WORD
    ensures w % 256 + w / 256 % 256 * 256 + w / 65536 % 256 * 65536 + w / 16777216 % 256 * 16777216 == w
  {
  }

  /** The words of a list, one after the other. */
  function LeAll(ns: seq<int>): (s: seq<Byte>)
    ensures |s| == 4 * |ns|
  {
    if ns == [] then [] else LeAll(ns[..|ns| - 1]) + Le32(ns[|ns| - 1])
  }

  lemma {:induction false} WordAt(ns: seq<int>, i: nat)
    requires i < |ns|
    ensures LeAll(ns)[4 * i..4 * i + 4] == Le32(ns[i])
  {
    hide Le32;
    if i < |ns| - 1 {
      WordAt(ns[..|ns| - 1], i);
      assert LeAll(ns)[4 * i..4 * i + 4] == LeAll(ns[..|ns| - 1])[4 * i..4 * i + 4];
    }
  }

  // ---- blocks --------------------------------------------------------------------------------

  function Concat(blocks: seq<seq<Byte>>): seq<Byte> {
    if blocks == [] then [] else Concat(blocks[..|blocks| - 1]) + blocks[|blocks| - 1]
  }

  /** The sum of the first `k` sizes. */
  function SumTo(sizes: seq<nat>, k: nat): nat
    requires k <= |sizes|
  {
    if k == 0 then 0 else SumTo(sizes, k - 1) + sizes[k - 1]
  }

  /** The blocks have these sizes. */
  ghost predicate Sized(blocks: seq<seq<Byte>>, sizes: seq<nat>) {
    |blocks| == |sizes| && forall i | 0 <= i < |blocks| :: |blocks[i]| == sizes[i]
  }

  lemma {:induction false} SumOfPrefix(sizes: seq<nat>, n: nat, k: nat)
    requires k <= n <= |sizes|
    ensures SumTo(sizes[..n], k) == SumTo(sizes, k)
  {
    if k > 0 { SumOfPrefix(sizes, n, k - 1); }
  }

  lemma {:induction false} SumGrows(sizes: seq<nat>, i: nat, k: nat)
    requires i <= k <= |sizes|
    ensures SumTo(sizes, i) <= SumTo(sizes, k)
  {
    if i < k { SumGrows(sizes, i, k - 1); }
  }

  lemma {:induction false} ConcatSize(blocks: seq<seq<Byte>>, sizes: seq<nat>)
    requires Sized(blocks, sizes)
    ensures |Concat(blocks)| == SumTo(sizes, |sizes|)
  {
    if blocks != [] {
      var n := |blocks| - 1;
      ConcatSize(blocks[..n], sizes[..n]);
      SumOfPrefix(sizes, n, n);
    }
  }

  /** Block `i` of a concatenation is where the sizes before it say. */
  lemma {:induction false} BlockAt(blocks: seq<seq<Byte>>, sizes: seq<nat>, i: nat)
    requires Sized(blocks, sizes) && i < |blocks|
    ensures SumTo(sizes, i) + sizes[i] <= |Concat(blocks)|
    ensures Concat(blocks)[SumTo(sizes, i)..SumTo(sizes, i) + sizes[i]] == blocks[i]
  {
    var n := |blocks| - 1;
    ConcatSize(blocks, sizes);
    ConcatSize(blocks[..n], sizes[..n]);
    SumOfPrefix(sizes, n, n);
    if i < n {
      BlockAt(blocks[..n], sizes[..n], i);
      SumOfPrefix(sizes, n, i);
    }
  }
}
