/** What quantisation loses: never more than half a step, and nothing the second time. */
module QuantLaws {
  import opened QMath

  lemma RoundNear(x: real)
    ensures Abs(Round(x) as real - x) <= 0.5
  {
  }

  lemma RoundWhole(n: int)
    ensures Round(n as real) == n
  {
  }

  lemma RoundBounded(x: real, b: nat)
    requires Abs(x) <= b as real
    ensures 0 - b <= Round(x) <= b
  {
  }

  lemma DivMul(x: real, s: real)
    requires s > 0.0
    ensures x / s * s == x
  {
  }

  lemma DivBounded(x: real, s: real, b: real)
    requires s > 0.0 && Abs(x) <= b * s
    ensures Abs(x / s) <= b
  {
    DivMul(x, s);
    if x / s > b { assert (x / s - b) * s > 0.0; }
    if x / s < -b { assert (-b - x / s) * s > 0.0; }
  }

  lemma ScaledError(d: real, s: real, e: real)
    requires s >= 0.0 && Abs(d) <= e
    ensures Abs(d * s) <= e * s
  {
    assert (e - d) * s >= 0.0 && (e + d) * s >= 0.0;
  }

  /** The value nearest to `x` among the multiples of the scale. */
  function Snap(x: real, scale: real): real { QuantOf(x, scale) as real * scale }

  /** One element: the step count is at most 127, and off by at most half a step. */
  lemma QuantOfClose(x: real, scale: real)
    requires scale >= 0.0 && Abs(x) <= 127.0 * scale
    ensures -127 <= QuantOf(x, scale) <= 127
    ensures Abs(QuantOf(x, scale) as real * scale - x) <= scale / 2.0
  {
    hide Round;
    if scale != 0.0 {
      DivBounded(x, scale, 127.0);
      RoundBounded(x / scale, 127);
      RoundNear(x / scale);
      var d := Round(x / scale) as real - x / scale;
      ScaledError(d, scale, 0.5);
      DivMul(x, scale);
      assert d * scale == Round(x / scale) as real * scale - x;
    } else {
      assert QuantOf(x, scale) as real * scale == 0.0;
    }
  }

  /** Every element of a vector is within 127 of its group's scale. */
  lemma InScale(x: seq<real>, gs: nat, i: nat)
    requires Groups(|x|, gs) && i < |x|
    ensures Abs(x[i]) <= 127.0 * ScaleAt(x, gs, i) && ScaleAt(x, gs, i) >= 0.0
  {
    hide MaxAbs;
    GroupOf(|x|, gs, i);
    var g := i / gs;
    var v := Group(x, gs, g);
    GroupAt(x, gs, g);
    assert v[i - g * gs] == x[i];
    var m := MaxAbs(v);
    assert Abs(v[i - g * gs]) <= m;
    assert 127.0 * (m / 127.0) == m;
  }

  /** Every quantised element lies in [-127, 127] and stands for a value within half a step. */
  lemma QuantisationError(x: seq<real>, gs: nat, i: nat)
    requires Groups(|x|, gs) && i < |x|
    ensures -127 <= Quantized(x, gs).q[i] <= 127
    ensures Abs(Deq(Quantized(x, gs), gs, i) - x[i]) <= ScaleAt(x, gs, i) / 2.0
  {
    hide QuantOf, ScaleOf;
    GroupOf(|x|, gs, i);
    InScale(x, gs, i);
    QuantOfClose(x[i], ScaleAt(x, gs, i));
  }

  // ---- quantising twice ----------------------------------------------------------------------

  lemma QuantOfTwice(n: int, scale: real)
    requires scale > 0.0
    ensures QuantOf(n as real * scale, scale) == n
  {
    hide Round;
    DivIs(n as real * scale, scale, n as real);
    RoundWhole(n);
  }

  lemma AbsScaled(n: int, s: real)
    requires s >= 0.0 && -127 <= n <= 127
    ensures Abs(n as real * s) <= 127.0 * s
  {
    ScaledError(n as real, s, 127.0);
  }

  /** The largest element of a group takes all 127 steps. */
  lemma FullScale(x: real, scale: real)
    requires scale > 0.0 && Abs(x) == 127.0 * scale
    ensures Abs(Snap(x, scale)) == 127.0 * scale
  {
    hide Round;
    if x >= 0.0 {
      assert x / scale == 127.0 by { DivIs(x, scale, 127.0); }
      RoundWhole(127);
    } else {
      assert x / scale == -127.0 by { DivIs(x, scale, -127.0); }
      RoundWhole(-127);
    }
  }

  lemma DivIs(x: real, s: real, b: real)
    requires s > 0.0 && x == b * s
    ensures x / s == b
  {
    DivMul(x, s);
    assert (x / s - b) * s == 0.0;
  }

  lemma MaxAbsIs(v: seq<real>, m: real, k: nat)
    requires k < |v| && Abs(v[k]) == m && forall i | 0 <= i < |v| :: Abs(v[i]) <= m
    ensures MaxAbs(v) == m
  {
    var top := MaxAbs(v);
    assert Abs(v[k]) <= top;
    if top > 0.0 {
      var i :| 0 <= i < |v| && Abs(v[i]) == top;
    }
  }

  lemma GroupMaxAbs(x: seq<real>, gs: nat, g: nat)
    requires Groups(|x|, gs) && g < |x| / gs
    ensures MaxAbs(Group(x, gs, g)) == 127.0 * ScaleOf(x, gs, g)
  {
    hide MaxAbs, Group;
  }

  /** A group of the dequantised vector, element by element. */
  lemma GroupDeq(x: seq<real>, gs: nat, g: nat, k: nat)
    requires Groups(|x|, gs) && g < |x| / gs && k < gs
    ensures var u, s := Group(x, gs, g), ScaleOf(x, gs, g);
            var v := Group(Dequantized(Quantized(x, gs), gs), gs, g);
            |u| == |v| == gs && v[k] == Snap(u[k], s) &&
            Abs(u[k]) <= 127.0 * s && Abs(v[k]) <= 127.0 * s
  {
    hide MaxAbs, QuantOf, ScaleOf, Group;
    var y := Dequantized(Quantized(x, gs), gs);
    GroupAt(x, gs, g);
    GroupAt(y, gs, g);
    GroupIndex(gs, g, k);
    var i, s := g * gs + k, ScaleOf(x, gs, g);
    InScale(x, gs, i);
    assert y[i] == Deq(Quantized(x, gs), gs, i);
    assert Quantized(x, gs).q[i] == QuantOf(x[i], s);
    QuantOfClose(x[i], s);
    AbsScaled(QuantOf(x[i], s), s);
  }

  lemma MaxAbsHit(v: seq<real>) returns (k: nat)
    requires MaxAbs(v) > 0.0
    ensures k < |v| && Abs(v[k]) == MaxAbs(v)
  {
    k :| 0 <= k < |v| && Abs(v[k]) == MaxAbs(v);
  }

  /** A vector rounded to its own scale keeps its largest magnitude. */
  lemma PeakKept(u: seq<real>, v: seq<real>, s: real)
    requires |u| == |v| > 0 && s >= 0.0 && MaxAbs(u) == 127.0 * s
    requires forall k | 0 <= k < |v| :: v[k] == Snap(u[k], s) && Abs(v[k]) <= 127.0 * s
    ensures MaxAbs(v) == 127.0 * s
  {
    hide MaxAbs, Snap;
    var k := 0;
    if s > 0.0 {
      k := MaxAbsHit(u);
      FullScale(u[k], s);
    }
    assert v[k] == Snap(u[k], s);
    MaxAbsIs(v, 127.0 * s, k);
  }

  lemma SameScale(x: seq<real>, gs: nat, g: nat)
    requires Groups(|x|, gs) && g < |x| / gs
    ensures ScaleOf(Dequantized(Quantized(x, gs), gs), gs, g) == ScaleOf(x, gs, g)
  {
    hide MaxAbs, Snap, Group, Quantized, Dequantized;
    var y := Dequantized(Quantized(x, gs), gs);
    var u, v := Group(x, gs, g), Group(y, gs, g);
    var s := ScaleOf(x, gs, g);
    GroupMaxAbs(x, gs, g);
    GroupDeq(x, gs, g, 0);
    forall k | 0 <= k < |v| ensures v[k] == Snap(u[k], s) && Abs(v[k]) <= 127.0 * s {
      GroupDeq(x, gs, g, k);
    }
    PeakKept(u, v, s);
  }

  /** Quantising what a quantised vector stands for gives the same integers and the same scales. */
  lemma RequantiseIsExact(x: seq<real>, gs: nat)
    requires Groups(|x|, gs)
    ensures Quantized(Dequantized(Quantized(x, gs), gs), gs) == Quantized(x, gs)
  {
    hide ScaleOf, QuantAt, Deq;
    var v := Quantized(x, gs);
    var y := Dequantized(v, gs);
    var w := Quantized(y, gs);
    forall g | 0 <= g < |x| / gs ensures w.s[g] == v.s[g] { SameScale(x, gs, g); }
    forall i | 0 <= i < |x| ensures w.q[i] == v.q[i] { SameSteps(x, gs, i); }
    assert w.q == v.q && w.s == v.s;
  }

  lemma SameSteps(x: seq<real>, gs: nat, i: nat)
    requires Groups(|x|, gs) && i < |x|
    ensures QuantAt(Dequantized(Quantized(x, gs), gs), gs, i) == QuantAt(x, gs, i)
  {
    hide ScaleOf, QuantOf;
    var y := Dequantized(Quantized(x, gs), gs);
    GroupOf(|x|, gs, i);
    var s := ScaleOf(x, gs, i / gs);
    SameScale(x, gs, i / gs);
    var n := QuantOf(x[i], s);
    assert y[i] == n as real * s;
    if s > 0.0 {
      QuantOfTwice(n, s);
    } else {
      NoSteps(x[i], s);
      NoSteps(y[i], s);
    }
  }

  lemma NoSteps(x: real, s: real)
    requires s == 0.0
    ensures QuantOf(x, s) == 0
  {
  }

  /** A value half way between two integers is rounded away from zero; rounding treats both signs alike. */
  lemma HalfAway(x: real, n: nat)
    ensures Round(-x) == -Round(x)
    ensures Round(n as real + 0.5) == n + 1 && Round(-(n as real) - 0.5) == -(n as int) - 1
    ensures x >= 0.0 ==> x - 0.5 < Round(x) as real <= x + 0.5
  {
  }
}
