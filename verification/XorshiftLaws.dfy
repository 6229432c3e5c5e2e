/** What the generator is: xorshift64* by its published values, and a coin from the top bits of its output. */
module XorshiftLaws {
  import opened Xorshift

  /** The output of a state, as an integer. */
  function Output(r: bv64): nat { (r * 2685821657736338717) as nat }

  /** The coin is the output over 2^64, cut off after 24 binary places. */
  lemma CoinIsTopBits(r: bv64)
    ensures CoinOf(r) * 16777216.0 * 1099511627776.0 <= Output(r) as real < (CoinOf(r) * 16777216.0 + 1.0) * 1099511627776.0
    ensures (CoinOf(r) * 16777216.0).Floor as real == CoinOf(r) * 16777216.0
  {
    var out := Output(r);
    var k, rest := out / 1099511627776, out % 1099511627776;
    assert out == k * 1099511627776 + rest;
    SameOutput(r);
    assert CoinOf(r) * 16777216.0 == k as real;
  }

  lemma SameOutput(r: bv64)
    ensures (r * 0x2545F4914F6CDD1D) as int == Output(r)
  {
  }

  /** The first states and outputs from seed 1, and those from the top bit alone and from another seed. */
  lemma PublishedValues()
    ensures NextState(1) == 33554433 && Output(33554433) == 5180492295206395165
    ensures NextState(33554433) == 1126174793148417 && Output(1126174793148417) == 12380297144915551517
    ensures NextState(1126174793148417) == 3659449627584515 && Output(3659449627584515) == 13389498078930870103
    ensures NextState(3659449627584515) == 2306758490171379329 && Output(2306758490171379329) == 5599127315341312413
    ensures NextState(9223372036854775808) == 9225623905404715008 && Output(9225623905404715008) == 17367356451260989440
    ensures NextState(1234) == 41406170598 && Output(41406170598) == 13571057368034195726
  {
  }
}
