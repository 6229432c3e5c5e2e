/** Nucleus sampling: which tokens a descending prefix holds, and why dropping improbable tokens first loses none. */
module Nucleus {
  import opened Kernels

  /** A token and its probability. */
  datatype Pair = Pair(id: nat, p: real)

  function Pairs(probs: seq<real>): (a: seq<Pair>)
    ensures |a| == |probs|
  {
    seq(|probs|, i requires 0 <= i < |probs| => Pair(i, probs[i]))
  }

  /** The pairs with probability at least `t`, in order. */
  function Kept(a: seq<Pair>, t: real): (r: seq<Pair>)
    ensures |r| <= |a|
  {
    if a == [] then []
    else Kept(a[..|a| - 1], t) + if a[|a| - 1].p >= t then [a[|a| - 1]] else []
  }

  function Mass(a: seq<Pair>): real {
    if a == [] then 0.0 else Mass(a[..|a| - 1]) + a[|a| - 1].p
  }

  predicate Descending(a: seq<Pair>) { forall i, j | 0 <= i < j < |a| :: a[i].p >= a[j].p }

  /** `f` lists `a` from the most to the least probable; ties may come in any order. */
  ghost predicate Arranges(f: seq<Pair>, a: seq<Pair>) { Descending(f) && multiset(f) == multiset(a) }

  /** The probabilities a vector may hold after softmax. */
  ghost predicate Distribution(probs: seq<real>) {
    SumOf(probs) == 1.0 && forall i | 0 <= i < |probs| :: probs[i] >= 0.0
  }

  function Cutoff(n: nat, topp: real): real
    requires n != 1
  {
    (1.0 - topp) / (n as real - 1.0)
  }

  /** What the pre-filter lets through. For a single token the cutoff is infinite. */
  function Filtered(probs: seq<real>, topp: real): seq<Pair> {
    if |probs| == 1 then [] else Kept(Pairs(probs), Cutoff(|probs|, topp))
  }

  /** `k` is the length of the shortest prefix with more mass than `topp`, or of the whole list if none has. */
  ghost predicate IsNucleus(f: seq<Pair>, topp: real, k: nat) {
    && 0 < k <= |f| && (forall j | 0 < j < k :: Mass(f[..j]) <= topp)
    && (k == |f| || Mass(f[..k]) > topp)
  }

  /** Position `j` is the one whose interval of the cumulative distribution holds `coin` times the mass. */
  ghost predicate LandsOn(f: seq<Pair>, k: nat, coin: real, j: nat) {
    j < k <= |f| && Mass(f[..j]) <= coin * Mass(f[..k]) < Mass(f[..j + 1])
  }

  // ---- filtering -----------------------------------------------------------------------------

  lemma {:induction false} KeptCount(a: seq<Pair>, t: real, x: Pair)
    ensures multiset(Kept(a, t))[x] == if x.p >= t then multiset(a)[x] else 0
  {
    if a != [] {
      KeptCount(a[..|a| - 1], t, x);
      assert a == a[..|a| - 1] + [a[|a| - 1]];
    }
  }

  lemma KeptOfSame(a: seq<Pair>, b: seq<Pair>, t: real)
    requires multiset(a) == multiset(b)
    ensures multiset(Kept(a, t)) == multiset(Kept(b, t)) && |Kept(a, t)| == |Kept(b, t)|
  {
    forall x: Pair ensures multiset(Kept(a, t))[x] == multiset(Kept(b, t))[x] {
      KeptCount(a, t, x);
      KeptCount(b, t, x);
    }
    assert multiset(Kept(a, t)) == multiset(Kept(b, t));
    assert |multiset(Kept(a, t))| == |Kept(a, t)| && |multiset(Kept(b, t))| == |Kept(b, t)|;
  }

  /** Filtering a descending list cuts it. */
  lemma {:induction false} KeptIsPrefix(a: seq<Pair>, t: real)
    requires Descending(a)
    ensures Kept(a, t) == a[..|Kept(a, t)|]
    ensures forall i | 0 <= i < |a| :: a[i].p >= t <==> i < |Kept(a, t)|
  {
    hide Kept;
    if a == [] {
      KeptNone(t);
    } else {
      var b := a[..|a| - 1];
      KeptIsPrefix(b, t);
      KeptNext(a, t);
      assert b != [] ==> b[|b| - 1].p >= a[|a| - 1].p;
    }
  }

  lemma KeptNone(t: real)
    ensures Kept([], t) == []
  {
  }

  lemma KeptNext(a: seq<Pair>, t: real)
    requires a != []
    ensures Kept(a, t) == Kept(a[..|a| - 1], t) + if a[|a| - 1].p >= t then [a[|a| - 1]] else []
  {
  }

  /** Two descending lists of the same pairs have the same probabilities at every position. */
  lemma SameProbabilities(f: seq<Pair>, g: seq<Pair>, i: nat)
    requires Descending(f) && Descending(g) && multiset(f) == multiset(g) && i < |f|
    ensures |f| == |g| && f[i].p == g[i].p
  {
    assert |multiset(f)| == |f| && |multiset(g)| == |g|;
    KeptOfSame(f, g, f[i].p);
    KeptIsPrefix(f, f[i].p);
    KeptIsPrefix(g, f[i].p);
    KeptOfSame(f, g, g[i].p);
    KeptIsPrefix(f, g[i].p);
    KeptIsPrefix(g, g[i].p);
  }

  lemma {:induction false} SameMass(f: seq<Pair>, g: seq<Pair>)
    requires |f| == |g| && forall i | 0 <= i < |f| :: f[i].p == g[i].p
    ensures Mass(f) == Mass(g)
  {
    if f != [] { SameMass(f[..|f| - 1], g[..|g| - 1]); }
  }

  lemma {:induction false} MassOfSum(a: seq<Pair>, b: seq<Pair>)
    ensures Mass(a + b) == Mass(a) + Mass(b)
  {
    if b == [] {
      assert a + b == a;
    } else {
      MassOfSum(a, b[..|b| - 1]);
      assert (a + b)[..|a + b| - 1] == a + b[..|b| - 1];
    }
  }

  lemma {:induction false} MassOfSame(a: seq<Pair>, b: seq<Pair>)
    requires multiset(a) == multiset(b)
    ensures Mass(a) == Mass(b)
    decreases |a|
  {
    assert |multiset(a)| == |a| && |multiset(b)| == |b|;
    if a != [] {
      var x, a0 := a[|a| - 1], a[..|a| - 1];
      assert a == a0 + [x];
      assert x in multiset(b);
      var k :| 0 <= k < |b| && b[k] == x;
      var b0, b1 := b[..k], b[k + 1..];
      assert b == b0 + ([x] + b1);
      assert multiset(a0) == multiset(a) - multiset{x} == multiset(b0 + b1);
      MassOfSame(a0, b0 + b1);
      MassOfSum(b0, b1);
      MassOfSum([x], b1);
      MassOfSum(b0, [x] + b1);
      MassOfOne(x);
    }
  }

  // ---- how much the filter keeps -------------------------------------------------------------

  ghost function Share(d: int, t: real): real { d as real * t }

  /** What the filter drops weighs less than the cutoff apiece. */
  lemma {:induction false} DroppedMass(a: seq<Pair>, t: real)
    ensures Mass(a) <= Mass(Kept(a, t)) + Share(|a| - |Kept(a, t)|, t)
    ensures |Kept(a, t)| < |a| ==> Mass(a) < Mass(Kept(a, t)) + Share(|a| - |Kept(a, t)|, t)
  {
    hide Share;
    if a == [] {
      ShareNone(t);
    } else {
      var b, x := a[..|a| - 1], a[|a| - 1];
      DroppedMass(b, t);
      ShareNext(|b| - |Kept(b, t)|, t);
      if x.p >= t {
        MassOfSum(Kept(b, t), [x]);
        MassOfOne(x);
      } else {
        assert Kept(a, t) == Kept(b, t);
      }
    }
  }

  lemma ShareNone(t: real)
    ensures Share(0, t) == 0.0
  {
  }

  lemma MassOfOne(x: Pair)
    ensures Mass([x]) == x.p
  {
    assert [x][..0] == [];
  }

  lemma ShareNext(d: int, t: real)
    ensures Share(d + 1, t) == Share(d, t) + t
  {
  }

  lemma {:induction false} MassOfPairs(probs: seq<real>, k: nat)
    requires k <= |probs|
    ensures Mass(Pairs(probs)[..k]) == SumOf(probs[..k])
  {
    if k > 0 {
      MassOfPairs(probs, k - 1);
      assert Pairs(probs)[..k][..k - 1] == Pairs(probs)[..k - 1] && probs[..k][..k - 1] == probs[..k - 1];
    }
  }

  /** With `topp` at least 1/n the tokens the filter keeps weigh more than `topp`. */
  lemma KeptMass(probs: seq<real>, topp: real)
    requires Distribution(probs) && |probs| >= 2 && |probs| as real * topp >= 1.0 && topp < 1.0
    ensures Mass(Filtered(probs, topp)) > topp && Filtered(probs, topp) != []
  {
    hide Pairs, Cutoff, Share, Kept;
    var a, n := Pairs(probs), |probs|;
    var t := Cutoff(n, topp);
    MassOfPairs(probs, n);
    assert a[..n] == a && probs[..n] == probs;
    DroppedMass(a, t);
    ShareNone(t);
    CutoffShares(n, topp, n - |Kept(a, t)|);
    CutoffFits(n, topp);
    PositiveProduct(n, topp);
  }

  lemma PositiveProduct(n: nat, x: real)
    requires n as real * x >= 1.0
    ensures x > 0.0
  {
    if x <= 0.0 { MulGrows(x, 0.0, n as real); }
  }

  /** All tokens but one weigh at most `1 - topp` when each weighs at most the cutoff. */
  lemma CutoffShares(n: nat, topp: real, d: nat)
    requires n >= 2 && topp < 1.0
    ensures d <= n - 1 ==> Share(d, Cutoff(n, topp)) <= 1.0 - topp
  {
    var m, t := n as real - 1.0, Cutoff(n, topp);
    assert m * t == 1.0 - topp;
    assert t >= 0.0;
    if d <= n - 1 { MulGrows(d as real, m, t); }
  }

  lemma MulStrict(a: real, b: real, t: real)
    requires a < b && t > 0.0
    ensures t * a < t * b
  {
  }

  lemma MulGrows(a: real, b: real, t: real)
    requires a <= b && t >= 0.0
    ensures a * t <= b * t
  {
  }

  /** Every token below the cutoff would weigh less than 1 in all, exactly when `topp` is at least 1/n. */
  lemma CutoffFits(n: nat, topp: real)
    requires n >= 2
    ensures Share(n, Cutoff(n, topp)) <= 1.0 <==> n as real * topp >= 1.0
  {
    var m, t := n as real - 1.0, Cutoff(n, topp);
    assert m * t == 1.0 - topp;
    assert n as real * t == 1.0 - topp + t;
    Compare(m, t, topp);
    assert n as real * topp == m * topp + topp;
  }

  lemma Compare(m: real, t: real, topp: real)
    requires m > 0.0 && m * t == 1.0 - topp
    ensures t <= topp <==> m * topp + topp >= 1.0
  {
    if t <= topp { MulGrows(t, topp, m); } else if m * topp >= m * t { DivBoth(m, topp, t); }
  }

  lemma DivBoth(m: real, a: real, b: real)
    requires m > 0.0 && m * a >= m * b
    ensures a >= b
  {
    if a < b { MulStrict(a, b, m); }
  }

  // ---- the pre-filter loses nothing ----------------------------------------------------------

  /** The filtered list is a prefix of the full one, up to the order of ties. */
  lemma FilteredIsPrefix(probs: seq<real>, topp: real, f: seq<Pair>, d: seq<Pair>)
    requires |probs| >= 2 && Arranges(f, Filtered(probs, topp)) && Arranges(d, Pairs(probs))
    ensures |f| <= |d|
    ensures forall j | 0 <= j <= |f| :: Mass(f[..j]) == Mass(d[..j])
    ensures forall i | 0 <= i < |f| :: f[i].p == d[i].p
  {
    hide Pairs;
    var t := Cutoff(|probs|, topp);
    var e := Kept(d, t);
    KeptOfSame(d, Pairs(probs), t);
    KeptIsPrefix(d, t);
    assert |multiset(f)| == |f| && |multiset(e)| == |e|;
    forall i | 0 <= i < |f| ensures f[i].p == d[i].p {
      SameProbabilities(f, e, i);
    }
    forall j | 0 <= j <= |f| ensures Mass(f[..j]) == Mass(d[..j]) {
      SameMass(f[..j], d[..j]);
    }
  }

  /**
   The nucleus of the filtered list and of the full list are the same, whichever way either is sorted:
   the same length, the same probabilities position by position, more mass than `topp`.
   */
  lemma PrefilterLosesNothing(probs: seq<real>, topp: real, f: seq<Pair>, d: seq<Pair>, k: nat)
    requires Distribution(probs) && |probs| >= 2 && |probs| as real * topp >= 1.0 && topp < 1.0
    requires Arranges(f, Filtered(probs, topp)) && Arranges(d, Pairs(probs))
    ensures IsNucleus(f, topp, k) <==> IsNucleus(d, topp, k)
    ensures IsNucleus(f, topp, k) ==>
              k <= |f| <= |d| && Mass(f[..k]) == Mass(d[..k]) > topp && forall i | 0 <= i < k :: f[i].p == d[i].p
  {
    hide Pairs, Filtered;
    FilteredIsPrefix(probs, topp, f, d);
    KeptMass(probs, topp);
    MassOfSame(f, Filtered(probs, topp));
    assert f[..|f|] == f;
  }

  /** Every sorted filtered list extends to a sorted full list, so the tokens are those of a nucleus of the full list. */
  lemma FilteredExtends(probs: seq<real>, topp: real, f: seq<Pair>, rest: seq<Pair>)
    requires |probs| >= 2 && Arranges(f, Filtered(probs, topp))
    requires Arranges(rest, Below(Pairs(probs), Cutoff(|probs|, topp)))
    ensures Arranges(f + rest, Pairs(probs))
  {
    hide Pairs, Kept, Below, Cutoff;
    var a, t := Pairs(probs), Cutoff(|probs|, topp);
    forall x: Pair ensures multiset(f + rest)[x] == multiset(a)[x] {
      KeptCount(a, t, x);
      BelowCount(a, t, x);
    }
    ExtendsDown(a, t, f, rest);
  }

  /** What the filter kept comes before what it dropped. */
  lemma ExtendsDown(a: seq<Pair>, t: real, f: seq<Pair>, rest: seq<Pair>)
    requires Arranges(f, Kept(a, t)) && Arranges(rest, Below(a, t))
    ensures Descending(f + rest)
  {
    hide Kept, Below;
    forall i | 0 <= i < |f| ensures f[i].p >= t {
      assert f[i] in multiset(f);
      KeptCount(a, t, f[i]);
    }
    forall i | 0 <= i < |rest| ensures rest[i].p < t {
      assert rest[i] in multiset(rest);
      BelowCount(a, t, rest[i]);
    }
  }

  /** The pairs the filter drops. */
  function Below(a: seq<Pair>, t: real): seq<Pair> {
    if a == [] then []
    else Below(a[..|a| - 1], t) + if a[|a| - 1].p >= t then [] else [a[|a| - 1]]
  }

  lemma {:induction false} BelowCount(a: seq<Pair>, t: real, x: Pair)
    ensures multiset(Below(a, t))[x] == if x.p >= t then 0 else multiset(a)[x]
  {
    if a != [] {
      BelowCount(a[..|a| - 1], t, x);
      assert a == a[..|a| - 1] + [a[|a| - 1]];
    }
  }

  // ---- when nothing is left ------------------------------------------------------------------

  /** The filter drops everything exactly when every probability is below the cutoff. */
  lemma {:induction false} NothingKept(a: seq<Pair>, t: real)
    ensures Kept(a, t) == [] <==> forall i | 0 <= i < |a| :: a[i].p < t
  {
    if a != [] {
      NothingKept(a[..|a| - 1], t);
      assert forall i | 0 <= i < |a| - 1 :: a[..|a| - 1][i] == a[i];
    }
  }

  function Uniform(n: nat): (r: seq<real>)
    requires n > 0
    ensures |r| == n
  {
    seq(n, _ => 1.0 / n as real)
  }

  lemma {:induction false} UniformSum(n: nat, k: nat)
    requires 0 < n && k <= n
    ensures SumOf(Uniform(n)[..k]) == k as real * (1.0 / n as real)
  {
    if k > 0 {
      UniformSum(n, k - 1);
      assert Uniform(n)[..k][..k - 1] == Uniform(n)[..k - 1];
      ShareNext(k - 1, 1.0 / n as real);
    }
  }

  ghost predicate AlwaysKeeps(n: nat, topp: real) {
    forall probs: seq<real> | |probs| == n && Distribution(probs) :: Filtered(probs, topp) != []
  }

  /** The filter leaves something of every distribution exactly when `topp` is at least 1/n. */
  lemma KeepsSomethingExactly(n: nat, topp: real)
    requires n >= 2 && topp < 1.0
    ensures AlwaysKeeps(n, topp) <==> n as real * topp >= 1.0
  {
    hide Filtered, Distribution;
    if n as real * topp >= 1.0 {
      forall probs: seq<real> | |probs| == n && Distribution(probs) ensures Filtered(probs, topp) != [] {
        KeptMass(probs, topp);
      }
    } else {
      UniformFails(n, topp);
      assert Filtered(Uniform(n), topp) == [];
    }
  }

  lemma UniformFails(n: nat, topp: real)
    requires n >= 2 && n as real * topp < 1.0
    ensures Distribution(Uniform(n)) && Filtered(Uniform(n), topp) == []
  {
    var u, t := 1.0 / n as real, Cutoff(n, topp);
    UniformSum(n, n);
    assert Uniform(n)[..n] == Uniform(n);
    assert n as real * u == 1.0;
    CutoffFits(n, topp);
    if t <= u { MulGrows(t, u, n as real); }
    NothingKept(Pairs(Uniform(n)), t);
  }
}
