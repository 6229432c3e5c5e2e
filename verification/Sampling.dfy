/** The sampler: greedy, full-distribution or nucleus choice of the next token, with a seeded generator. */
module Sampling {
  import opened Kernels
  import opened Nucleus
  import opened Xorshift

  // ---- sorting -------------------------------------------------------------------------------

  function Insert(a: seq<Pair>, x: Pair): (r: seq<Pair>) {
    if a == [] then [x]
    else if x.p >= a[0].p then [x] + a
    else [a[0]] + Insert(a[1..], x)
  }

  lemma {:induction false} InsertBelow(a: seq<Pair>, x: Pair, t: real)
    requires x.p <= t && forall i | 0 <= i < |a| :: a[i].p <= t
    ensures forall i | 0 <= i < |Insert(a, x)| :: Insert(a, x)[i].p <= t
  {
    if a != [] { InsertBelow(a[1..], x, t); }
  }

  lemma {:induction false} InsertDescends(a: seq<Pair>, x: Pair)
    requires Descending(a)
    ensures Descending(Insert(a, x))
  {
    if a != [] && x.p < a[0].p {
      InsertDescends(a[1..], x);
      InsertBelow(a[1..], x, a[0].p);
    }
  }

  lemma {:induction false} InsertAdds(a: seq<Pair>, x: Pair)
    ensures multiset(Insert(a, x)) == multiset(a) + multiset{x}
  {
    if a != [] {
      InsertAdds(a[1..], x);
      assert a == [a[0]] + a[1..];
    }
  }

  /** One way to sort from the most to the least probable. */
  function Sorted(a: seq<Pair>): (r: seq<Pair>) {
    if a == [] then [] else Insert(Sorted(a[..|a| - 1]), a[|a| - 1])
  }

  lemma {:induction false} SortedArranges(a: seq<Pair>)
    ensures Arranges(Sorted(a), a)
  {
    if a != [] {
      SortedArranges(a[..|a| - 1]);
      InsertDescends(Sorted(a[..|a| - 1]), a[|a| - 1]);
      InsertAdds(Sorted(a[..|a| - 1]), a[|a| - 1]);
      assert a == a[..|a| - 1] + [a[|a| - 1]];
    }
  }

  // ---- what a choice means -------------------------------------------------------------------

  datatype Choice = Picked(id: nat) | Panicked

  /** The first of the largest. */
  ghost predicate FirstLargest(v: seq<real>, k: nat) {
    && k < |v| && (forall i | 0 <= i < |v| :: v[i] <= v[k]) && forall i | 0 <= i < k :: v[i] < v[k]
  }

  /** Position `j` of a nucleus of `f`, the one the coin lands on. */
  ghost predicate Lands(f: seq<Pair>, topp: real, coin: real, k: nat, j: nat) {
    IsNucleus(f, topp, k) && LandsOn(f, k, coin, j)
  }

  /** A choice from the nucleus of a sorted list `f`; indexing an empty list panics. */
  ghost predicate FromNucleus(f: seq<Pair>, topp: real, coin: real, o: Choice) {
    match o
    case Panicked => f == []
    case Picked(id) => exists k: nat, j: nat :: Lands(f, topp, coin, k, j) && f[j].id == id
  }

  /** Dividing the logits by the temperature. */
  function Tempered(v: seq<real>, temperature: real): (r: seq<real>)
    requires temperature != 0.0
    ensures |r| == |v|
  {
    seq(|v|, i requires 0 <= i < |v| => v[i] / temperature)
  }

  method ArgMax(v: array<real>) returns (best: nat)
    ensures v.Length > 0 ==> FirstLargest(v[..], best)
    ensures v.Length == 0 ==> best == 0
  {
    best := 0;
    var i := 0;
    while i < v.Length
      invariant 0 <= i <= v.Length && best <= i && (best == i ==> i == 0)
      invariant forall j | 0 <= j < i :: v[j] <= v[best]
      invariant forall j | 0 <= j < best :: v[j] < v[best]
    {
      if i == 0 || v[i] > v[best] { best := i; }
      i := i + 1;
    }
  }

  /** The least index whose cumulative probability passes the coin, or the last index if none does. */
  ghost predicate FromAll(a: seq<Pair>, coin: real, j: nat) {
    && j < |a| && (forall i | 0 < i <= j :: Mass(a[..i]) <= coin)
    && (coin < Mass(a[..j + 1]) || j == |a| - 1)
  }

  lemma MassNext(a: seq<Pair>, k: nat)
    requires k < |a|
    ensures Mass(a[..k + 1]) == Mass(a[..k]) + a[k].p
  {
    assert a[..k + 1][..k] == a[..k];
  }

  method SampleMult(probs: array<real>, coin: real) returns (j: nat)
    requires probs.Length > 0
    ensures FromAll(Pairs(probs[..]), coin, j)
  {
    hide Mass;
    ghost var a := Pairs(probs[..]);
    var cdf := 0.0;
    assert Mass(a[..0]) == 0.0 by { MassNone(a); }
    j := 0;
    while j < probs.Length
      invariant 0 <= j <= probs.Length && cdf == Mass(a[..j])
      invariant forall i | 0 < i <= j :: Mass(a[..i]) <= coin
    {
      MassNext(a, j);
      cdf := cdf + probs[j];
      if coin < cdf { return; }
      j := j + 1;
    }
    j := probs.Length - 1;
  }

  lemma MassNone(a: seq<Pair>)
    ensures Mass(a[..0]) == 0.0
  {
  }

  /** Keep the pairs at or above the cutoff. */
  method Filter(probs: array<real>, topp: real) returns (kept: seq<Pair>)
    ensures kept == Filtered(probs[..], topp)
  {
    kept := [];
    if probs.Length == 1 { return; }
    ghost var a := Pairs(probs[..]);
    var cutoff := Cutoff(probs.Length, topp);
    var i := 0;
    while i < probs.Length
      invariant 0 <= i <= probs.Length && kept == Kept(a[..i], cutoff)
    {
      assert a[..i + 1][..i] == a[..i];
      if probs[i] >= cutoff { kept := kept + [Pair(i, probs[i])]; }
      i := i + 1;
    }
    assert a[..i] == a;
  }

  /** The shortest prefix with more mass than `topp`. */
  method Truncate(f: seq<Pair>, topp: real) returns (last: nat, cumulative: real)
    ensures f == [] ==> last == 0 && cumulative == 0.0
    ensures f != [] ==> IsNucleus(f, topp, last + 1) && cumulative == Mass(f[..last + 1])
  {
    hide Mass;
    cumulative := 0.0;
    MassNone(f);
    last := if f == [] then 0 else |f| - 1;
    var i := 0;
    while i < |f|
      invariant 0 <= i <= |f| && cumulative == Mass(f[..i])
      invariant forall j | 0 < j <= i :: Mass(f[..j]) <= topp
    {
      MassNext(f, i);
      cumulative := cumulative + f[i].p;
      if cumulative > topp {
        last := i;
        break;
      }
      i := i + 1;
    }
  }

  /** The position in a nucleus that the coin lands on. */
  method Land(f: seq<Pair>, last: nat, r: real, ghost coin: real) returns (j: nat)
    requires last < |f| && 0.0 <= r == coin * Mass(f[..last + 1]) < Mass(f[..last + 1])
    ensures LandsOn(f, last + 1, coin, j)
  {
    hide Mass;
    var cdf := 0.0;
    MassNone(f);
    j := 0;
    while j <= last
      invariant 0 <= j <= last + 1 && cdf == Mass(f[..j]) <= r
    {
      MassNext(f, j);
      cdf := cdf + f[j].p;
      if r < cdf { return; }
      j := j + 1;
    }
    assert false; // rounding aside, the coin always lands
  }

  /** What is left after filtering is at or above the cutoff. */
  lemma KeptAbove(a: seq<Pair>, t: real, f: seq<Pair>, i: nat)
    requires multiset(f) == multiset(Kept(a, t)) && i < |f|
    ensures f[i].p >= t
  {
    assert f[i] in multiset(f);
    KeptCount(a, t, f[i]);
  }

  lemma CutoffPositive(n: nat, topp: real)
    requires n > 1 && topp < 1.0
    ensures Cutoff(n, topp) > 0.0
  {
    QuotientPositive(1.0 - topp, n as real - 1.0);
  }

  lemma MoreThanOne(probs: seq<real>, topp: real)
    requires Filtered(probs, topp) != []
    ensures |probs| > 1
  {
  }

  lemma SameSize(f: seq<Pair>, a: seq<Pair>)
    requires multiset(f) == multiset(a)
    ensures |f| == |a|
  {
    assert |multiset(f)| == |f| && |multiset(a)| == |a|;
  }

  /** A filtered list that is not empty has positive mass. */
  lemma KeptIsHeavy(probs: seq<real>, topp: real, f: seq<Pair>, k: nat)
    requires topp < 1.0 && multiset(f) == multiset(Filtered(probs, topp)) && 0 < k <= |f|
    ensures Mass(f[..k]) > 0.0
  {
    hide Pairs, Cutoff, Kept;
    SameSize(f, Filtered(probs, topp));
    MoreThanOne(probs, topp);
    var t := Cutoff(|probs|, topp);
    CutoffPositive(|probs|, topp);
    forall i | 0 <= i < k ensures f[..k][i].p > 0.0 {
      KeptAbove(Pairs(probs), t, f, i);
    }
    MassPositive(f[..k]);
  }

  lemma {:induction false} MassPositive(a: seq<Pair>)
    requires forall i | 0 <= i < |a| :: a[i].p > 0.0
    ensures a == [] || Mass(a) > 0.0
  {
    if a != [] { MassPositive(a[..|a| - 1]); }
  }

  /** The mass of a coin's share. */
  lemma ShareOfMass(coin: real, mass: real)
    requires 0.0 <= coin < 1.0 && mass > 0.0
    ensures 0.0 <= coin * mass < mass
  {
  }

  class Sampler {
    const lm: Libm
    const temperature: real
    const topp: real
    var rng: bv64
    var probindex: seq<Pair>

    constructor (lm: Libm, temperature: real, topp: real, seed: bv64)
      ensures Valid() && this.lm == lm && this.temperature == temperature && this.topp == topp
      ensures rng == if seed == 0 then 1 else seed
    {
      this.lm, this.temperature, this.topp := lm, temperature, topp;
      rng := if seed == 0 then 1 else seed;
      probindex := [];
    }

    ghost predicate Valid()
      reads this`rng
    {
      rng != 0
    }

    method Draw() returns (coin: real)
      requires Valid()
      modifies this`rng
      ensures Valid() && rng == NextState(old(rng)) && coin == CoinOf(rng) && 0.0 <= coin < 1.0
    {
      hide NextState, CoinOf;
      NextStateNonzero(rng);
      rng := NextState(rng);
      CoinInRange(rng);
      coin := CoinOf(rng);
    }

    /** A choice from the nucleus of the sorted, filtered tokens. */
    method SampleTopp(probs: array<real>, coin: real) returns (o: Choice)
      requires 0.0 < topp < 1.0 && 0.0 <= coin < 1.0
      modifies this`probindex
      ensures Arranges(probindex, Filtered(probs[..], topp)) && FromNucleus(probindex, topp, coin, o)
    {
      hide Mass, Filtered, IsNucleus, LandsOn, Sorted;
      var kept := Filter(probs, topp);
      SortedArranges(kept);
      probindex := Sorted(kept);
      var last, cumulative := Truncate(probindex, topp);
      if probindex == [] { return Panicked; }
      NucleusFits(probindex, topp, last + 1);
      KeptIsHeavy(probs[..], topp, probindex, last + 1);
      ShareOfMass(coin, cumulative);
      var j := Land(probindex, last, coin * cumulative, coin);
      assert Lands(probindex, topp, coin, last + 1, j);
      LandFits(probindex, last + 1, coin, j);
      o := Picked(probindex[j].id);
    }

    /** Pick the next token. With a temperature the logits are replaced by probabilities. */
    method Sample(logits: array<real>) returns (o: Choice)
      requires Valid() && logits.Length > 0
      modifies this, logits
      ensures Valid()
      ensures temperature == 0.0 ==> o.Picked? && FirstLargest(old(logits[..]), o.id) && rng == old(rng)
      ensures temperature != 0.0 ==>
                rng == NextState(old(rng)) && logits[..] == Softmax(lm, Tempered(old(logits[..]), temperature))
      ensures temperature != 0.0 && 0.0 < topp < 1.0 ==>
                Arranges(probindex, Filtered(logits[..], topp)) && FromNucleus(probindex, topp, CoinOf(rng), o)
      ensures temperature != 0.0 && !(0.0 < topp < 1.0) ==>
                o.Picked? && FromAll(Pairs(logits[..]), CoinOf(rng), o.id)
    {
      hide Softmax, NextState, CoinOf, Filtered, FromNucleus, FromAll, Arranges;
      if temperature == 0.0 {
        var best := ArgMax(logits);
        return Picked(best);
      }
      ghost var v := logits[..];
      Temper(logits);
      assert Slice(logits[..], 0, logits.Length) == Tempered(v, temperature);
      SoftmaxInPlace(lm, logits, 0, logits.Length);
      assert Slice(logits[..], 0, logits.Length) == logits[..];
      var coin := Draw();
      if topp <= 0.0 || topp >= 1.0 {
        var j := SampleMult(logits, coin);
        o := Picked(j);
      } else {
        o := SampleTopp(logits, coin);
      }
    }

    method Temper(logits: array<real>)
      requires temperature != 0.0
      modifies logits
      ensures logits[..] == Tempered(old(logits[..]), temperature)
    {
      var i := 0;
      while i < logits.Length
        invariant 0 <= i <= logits.Length
        invariant forall k | 0 <= k < i :: logits[k] == old(logits[k]) / temperature
        invariant forall k | i <= k < logits.Length :: logits[k] == old(logits[k])
      {
        logits[i] := logits[i] / temperature;
        i := i + 1;
      }
      assert logits[..] == Tempered(old(logits[..]), temperature);
    }
  }

  lemma NucleusFits(f: seq<Pair>, topp: real, k: nat)
    requires IsNucleus(f, topp, k)
    ensures 0 < k <= |f|
  {
  }

  lemma LandFits(f: seq<Pair>, k: nat, coin: real, j: nat)
    requires LandsOn(f, k, coin, j)
    ensures j < k <= |f|
  {
  }

  // ---- what it comes to ----------------------------------------------------------------------

  /** Softmax gives a distribution. */
  lemma SoftmaxIsDistribution(lm: Libm, v: seq<real>)
    requires v != [] && forall x :: lm.exp(x) > 0.0
    ensures Distribution(Softmax(lm, v))
  {
    hide MaxOf;
    var e := Exps(lm, v);
    var total := SumOf(e);
    SumPositive(e);
    SumDivided(e, Softmax(lm, v), total);
    assert total / total == 1.0;
    forall i | 0 <= i < |v| ensures Softmax(lm, v)[i] >= 0.0 { QuotientPositive(e[i], total); }
  }

  lemma QuotientPositive(a: real, b: real)
    requires a > 0.0 && b > 0.0
    ensures a / b > 0.0
  {
  }

  lemma {:induction false} SumPositive(v: seq<real>)
    requires v != [] && forall i | 0 <= i < |v| :: v[i] > 0.0
    ensures SumOf(v) > 0.0
  {
    if |v| > 1 { SumPositive(v[..|v| - 1]); } else { assert SumOf(v[..0]) == 0.0; }
  }

  lemma {:induction false} SumDivided(v: seq<real>, w: seq<real>, total: real)
    requires total > 0.0 && |v| == |w| && forall i | 0 <= i < |v| :: w[i] == v[i] / total
    ensures SumOf(w) == SumOf(v) / total
  {
    if v != [] {
      SumDivided(v[..|v| - 1], w[..|w| - 1], total);
      Divided(SumOf(v[..|v| - 1]), v[|v| - 1], total);
    }
  }

  lemma Divided(a: real, b: real, total: real)
    requires total > 0.0
    ensures (a + b) / total == a / total + b / total
  {
  }

  /**
   With `topp` between 1/n and 1, nucleus sampling never panics, and the token chosen is the one the coin
   lands on in a nucleus of all the tokens, not only of those that pass the filter.
   */
  lemma NucleusOfAll(probs: seq<real>, topp: real, coin: real, f: seq<Pair>, o: Choice) returns (d: seq<Pair>, k: nat, j: nat)
    requires Distribution(probs) && |probs| >= 2 && |probs| as real * topp >= 1.0 && topp < 1.0
    requires Arranges(f, Filtered(probs, topp)) && FromNucleus(f, topp, coin, o)
    ensures Arranges(d, Pairs(probs)) && Lands(d, topp, coin, k, j) && o == Picked(d[j].id)
    ensures Mass(d[..k]) > topp
  {
    hide Pairs, Filtered, Mass, Sorted, Descending, IsNucleus, LandsOn, Distribution, FromNucleus;
    KeptMass(probs, topp);
    SameSize(f, Filtered(probs, topp));
    k, j := WhereItLands(f, topp, coin, o);
    var rest := Sorted(Below(Pairs(probs), Cutoff(|probs|, topp)));
    SortedArranges(Below(Pairs(probs), Cutoff(|probs|, topp)));
    FilteredExtends(probs, topp, f, rest);
    d := f + rest;
    PrefilterLosesNothing(probs, topp, f, d, k);
    LandsInLonger(f, rest, topp, coin, k, j);
  }

  lemma WhereItLands(f: seq<Pair>, topp: real, coin: real, o: Choice) returns (k: nat, j: nat)
    requires FromNucleus(f, topp, coin, o) && f != []
    ensures Lands(f, topp, coin, k, j) && IsNucleus(f, topp, k) && j < |f| && o == Picked(f[j].id)
  {
    hide Mass;
    k, j :| Lands(f, topp, coin, k, j) && f[j].id == o.id;
  }

  /** The coin lands on the same position when less probable tokens follow. */
  lemma LandsInLonger(f: seq<Pair>, rest: seq<Pair>, topp: real, coin: real, k: nat, j: nat)
    requires Lands(f, topp, coin, k, j) && IsNucleus(f + rest, topp, k)
    ensures j < |f| && Lands(f + rest, topp, coin, k, j) && (f + rest)[j] == f[j]
  {
    hide Mass;
    var d := f + rest;
    assert d[..k] == f[..k] && d[..j] == f[..j] && d[..j + 1] == f[..j + 1];
  }

  /** Whichever way all the tokens are sorted, the nucleus has one length and one mass. */
  lemma NucleusIsUnique(probs: seq<real>, topp: real, d: seq<Pair>, g: seq<Pair>, k: nat, i: nat)
    requires Arranges(d, Pairs(probs)) && Arranges(g, Pairs(probs)) && IsNucleus(d, topp, k) && IsNucleus(g, topp, i)
    ensures i == k && Mass(g[..i]) == Mass(d[..k])
  {
    hide Pairs;
    SameSize(d, Pairs(probs));
    SameSize(g, Pairs(probs));
    forall n | 0 <= n <= |d| ensures Mass(d[..n]) == Mass(g[..n]) {
      forall x | 0 <= x < n ensures d[..n][x].p == g[..n][x].p { SameProbabilities(d, g, x); }
      SameMass(d[..n], g[..n]);
    }
  }

  /** Sampling from everything: the coin falls in the chosen token's interval of the cumulative distribution. */
  lemma AllInterval(probs: seq<real>, coin: real, j: nat)
    requires Distribution(probs) && 0.0 <= coin < 1.0 && FromAll(Pairs(probs), coin, j)
    ensures Mass(Pairs(probs)[..j]) <= coin < Mass(Pairs(probs)[..j + 1])
  {
    hide Pairs;
    var a := Pairs(probs);
    MassNone(a);
    MassOfPairs(probs, |probs|);
    assert a[..|a|] == a && probs[..|probs|] == probs;
  }
}
