/** The xorshift generator behind the sampler's coin. */
module Xorshift {

  function Step1(r: bv64): bv64 { r ^ (r >> 12) }

  function Step2(r: bv64): bv64 { r ^ (r << 25) }

  function Step3(r: bv64): bv64 { r ^ (r >> 27) }

  function NextState(r: bv64): bv64 { Step3(Step2(Step1(r))) }

  lemma Step1Nonzero(r: bv64)
    requires r != 0
    ensures Step1(r) != 0
  {
  }

  lemma Step2Nonzero(r: bv64)
    requires r != 0
    ensures Step2(r) != 0
  {
  }

  lemma Step3Nonzero(r: bv64)
    requires r != 0
    ensures Step3(r) != 0
  {
  }

  /** The generator never reaches zero, the state it could not leave. */
  lemma NextStateNonzero(r: bv64)
    requires r != 0
    ensures NextState(r) != 0
  {
    hide Step1, Step2, Step3;
    Step1Nonzero(r);
    Step2Nonzero(Step1(r));
    Step3Nonzero(Step2(Step1(r)));
  }

  /** The top 24 bits of the scrambled state, as a fraction. */
  function CoinOf(r: bv64): real {
    ((r * 0x2545F4914F6CDD1D) as int / 0x100_0000_0000) as real / 16777216.0
  }

  lemma CoinInRange(r: bv64)
    ensures 0.0 <= CoinOf(r) < 1.0
  {
    TopBits(r * 0x2545F4914F6CDD1D);
  }

  lemma Word(x: bv64)
    ensures x as int < 0x1_0000_0000_0000_0000
  {
  }

  lemma TopBits(x: bv64)
    ensures x as int / 0x100_0000_0000 < 16777216
  {
    Word(x);
  }
}
