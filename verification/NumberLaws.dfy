/**
 Numbers apart from rounding. When the float operations of the standard library are the exact ones, every value
 that coerces to a number stands for a real, and the operators, comparisons and builtins are those of the reals.
 */
module NumberLaws {
  import opened Values
  import opened Ir
  import opened Ops

  /** What a float stands for. */
  type Reading = F64 -> real

  /** The library's float operations are exact under this reading. */
  ghost predicate Exact(std: Std, val: Reading) {
    && (forall x, y :: val(std.add(x, y)) == val(x) + val(y) && val(std.sub(x, y)) == val(x) - val(y))
    && (forall x, y :: val(std.mul(x, y)) == val(x) * val(y))
    && (forall x, y :: val(y) != 0.0 ==> val(std.div(x, y)) == val(x) / val(y))
    && (forall x :: val(std.neg(x)) == -val(x))
    && (forall x, y :: std.lt(x, y) <==> val(x) < val(y))
    && (forall x, y :: std.le(x, y) <==> val(x) <= val(y))
    && (forall x, y :: std.eq(x, y) <==> val(x) == val(y))
    && (forall n: int :: val(std.ofInt(n)) == n as real)
    && (forall x :: Truncates(val(x), std.toInt(x)))
    && val(std.half) == 0.5
  }

  /** `n` is `x` without its fraction, or the end of the range that `x` lies beyond. */
  ghost predicate Truncates(x: real, n: i64) {
    if x >= 9223372036854775808.0 then n == 9223372036854775807
    else if x <= -9223372036854775808.0 then n == -9223372036854775808
    else (if x >= 0.0 then n as real <= x < n as real + 1.0 else n as real - 1.0 < x <= n as real)
  }

  /** The number a value coerces to. */
  ghost function Num(std: Std, val: Reading, v: Value): Option<real> {
    match v
    case Int(n) => Some(n as real)
    case Float(x) => Some(val(x))
    case Bool(b) => Some(if b then 1.0 else 0.0)
    case Str(s) => var x := std.parseFloat(std.trim(s)); if x.Some? then Some(val(x.value)) else None
    case List(_) => None
  }

  /** A result that is a number. */
  ghost predicate Gives(std: Std, val: Reading, r: Result<Value>, x: real) {
    r.Ok? && (r.value.Int? || r.value.Float?) && Num(std, val, r.value) == Some(x)
  }

  lemma Coerces(std: Std, val: Reading, v: Value)
    requires Exact(std, val)
    ensures AsF64(std, v).Ok? <==> Num(std, val, v).Some?
    ensures AsF64(std, v).Ok? ==> val(AsF64(std, v).value) == Num(std, val, v).value
  {
  }

  // ---- operators -----------------------------------------------------------------------------

  /** An operator on two numbers, not both integers, and no `+` of strings. */
  ghost predicate OnNumbers(std: Std, val: Reading, op: BinOp, a: Value, b: Value) {
    && Num(std, val, a).Some? && Num(std, val, b).Some? && !(a.Int? && b.Int?)
    && !(op == BinOp.Add && (a.Str? || b.Str?))
  }

  /** The operation of the reals, where it is defined. */
  function RealOp(op: BinOp, x: real, y: real): Option<real> {
    match op
    case Add => Some(x + y)
    case Sub => Some(x - y)
    case Mul => Some(x * y)
    case Div => if y == 0.0 then None else Some(x / y)
    case Rem => None
  }

  /** The operators are those of the reals. */
  lemma OperatorsCompute(std: Std, val: Reading, op: BinOp, a: Value, b: Value)
    requires Exact(std, val) && OnNumbers(std, val, op, a, b)
    requires RealOp(op, Num(std, val, a).value, Num(std, val, b).value).Some?
    ensures Gives(std, val, NumBinop(std, op, a, b), RealOp(op, Num(std, val, a).value, Num(std, val, b).value).value)
  {
    hide Exact, ToText, AsF64, RealOp;
    Coerces(std, val, a);
    Coerces(std, val, b);
    FloatOp(std, val, op, AsF64(std, a).value, AsF64(std, b).value);
    BothCoerce(std, val, op, a, b);
  }

  /** An operator on anything but two integers is the operator on their floats. */
  lemma BothCoerce(std: Std, val: Reading, op: BinOp, a: Value, b: Value)
    requires OnNumbers(std, val, op, a, b) && AsF64(std, a).Ok? && AsF64(std, b).Ok?
    ensures NumBinop(std, op, a, b) == NumBinop(std, op, Float(AsF64(std, a).value), Float(AsF64(std, b).value))
  {
    hide ToText;
  }

  lemma FloatOp(std: Std, val: Reading, op: BinOp, x: F64, y: F64)
    requires Exact(std, val) && RealOp(op, val(x), val(y)).Some?
    ensures Gives(std, val, NumBinop(std, op, Float(x), Float(y)), RealOp(op, val(x), val(y)).value)
  {
    hide Exact;
    FloatsCompute(std, val, x, y);
  }

  lemma FloatsCompute(std: Std, val: Reading, x: F64, y: F64)
    requires Exact(std, val)
    ensures val(std.add(x, y)) == val(x) + val(y) && val(std.sub(x, y)) == val(x) - val(y)
    ensures val(std.mul(x, y)) == val(x) * val(y) && (val(y) != 0.0 ==> val(std.div(x, y)) == val(x) / val(y))
    ensures val(std.neg(x)) == -val(x)
    ensures std.lt(x, y) == (val(x) < val(y)) && std.le(x, y) == (val(x) <= val(y)) && std.eq(x, y) == (val(x) == val(y))
  {
  }

  /** The remainder is that of the float library, of the two numbers in order. */
  lemma RemainderIs(std: Std, val: Reading, x: F64, y: F64)
    requires Exact(std, val)
    ensures NumBinop(std, BinOp.Rem, Float(x), Float(y)) == Ok(Float(std.rem(x, y)))
    ensures forall n: i64 :: NumBinop(std, BinOp.Rem, Int(n), Float(y)) == NumBinop(std, BinOp.Rem, Float(std.ofInt(n)), Float(y))
  {
  }

  /** What is no number cannot be computed with. */
  lemma NoNumberNoResult(std: Std, val: Reading, op: BinOp, a: Value, b: Value)
    requires Exact(std, val) && (Num(std, val, a).None? || Num(std, val, b).None?)
    requires !(op == BinOp.Add && (a.Str? || b.Str?))
    ensures NumBinop(std, op, a, b).Err?
    ensures (a.List? || (b.List? && Num(std, val, a).Some?)) ==> NumBinop(std, op, a, b) == Bad(NotNumericList)
  {
    Coerces(std, val, a);
    Coerces(std, val, b);
  }

  /** A negated number; only the least integer has no opposite. */
  lemma NegationComputes(std: Std, val: Reading, v: Value)
    requires Exact(std, val) && (v.Int? || v.Float?) && v != Int(-9223372036854775808)
    ensures Gives(std, val, ApplyUnary(std, Neg, v), -Num(std, val, v).value)
  {
  }

  /** Falsehood is false, zero and what is empty; `not` turns it round. */
  lemma TruthLaw(std: Std, val: Reading, v: Value)
    requires Exact(std, val)
    ensures var falsy := v == Bool(false) || ((v.Int? || v.Float?) && Num(std, val, v) == Some(0.0)) ||
                         v == Str("") || v == List([]);
            && AsBool(std, v) == !falsy && ApplyUnary(std, Not, v) == Ok(Bool(falsy))
            && ApplyPure(std, ToBool, [v]) == Ok(Bool(!falsy))
  {
  }

  // ---- comparisons ---------------------------------------------------------------------------

  /** Comparisons are those of the reals, for every pair of numbers that is not a pair of strings or of booleans. */
  lemma ComparisonsCompute(std: Std, val: Reading, a: Value, b: Value)
    requires Exact(std, val) && !(a.Bool? && b.Bool?) && !(a.Str? && b.Str?)
    requires Num(std, val, a).Some? && Num(std, val, b).Some?
    ensures var x, y := Num(std, val, a).value, Num(std, val, b).value;
            && Compare(std, CmpOp.Lt, a, b) == Ok(x < y) && Compare(std, CmpOp.Le, a, b) == Ok(x <= y)
            && Compare(std, CmpOp.Gt, a, b) == Ok(x > y) && Compare(std, CmpOp.Ge, a, b) == Ok(x >= y)
            && Compare(std, CmpOp.Eq, a, b) == Ok(x == y) && Compare(std, CmpOp.Ne, a, b) == Ok(x != y)
  {
    hide Exact;
    Coerces(std, val, a);
    Coerces(std, val, b);
    FloatsCompute(std, val, AsF64(std, a).value, AsF64(std, b).value);
    FloatsCompute(std, val, AsF64(std, b).value, AsF64(std, a).value);
  }

  /** So exactly one of less, equal and greater holds, and the other three are put together from these. */
  lemma Trichotomy(std: Std, val: Reading, a: Value, b: Value)
    requires Exact(std, val) && !(a.Bool? && b.Bool?) && !(a.Str? && b.Str?)
    requires Num(std, val, a).Some? && Num(std, val, b).Some?
    ensures var lt, eq, gt := Compare(std, CmpOp.Lt, a, b).value, Compare(std, CmpOp.Eq, a, b).value,
                              Compare(std, CmpOp.Gt, a, b).value;
            && (lt || eq || gt) && !(lt && eq) && !(lt && gt) && !(eq && gt)
            && Compare(std, CmpOp.Le, a, b) == Ok(lt || eq) && Compare(std, CmpOp.Ge, a, b) == Ok(gt || eq)
            && Compare(std, CmpOp.Ne, a, b) == Ok(!eq)
  {
    hide Exact, Compare, Num;
    ComparisonsCompute(std, val, a, b);
  }

  /** Booleans can be told apart and nothing else. */
  lemma BooleansCompare(std: Std, a: bool, b: bool)
    ensures Compare(std, CmpOp.Eq, Bool(a), Bool(b)) == Ok(a <==> b) && Compare(std, CmpOp.Ne, Bool(a), Bool(b)) == Ok(a <==> !b)
    ensures forall op: CmpOp | op.Lt? || op.Le? || op.Gt? || op.Ge? :: Compare(std, op, Bool(a), Bool(b)) == Bad(BoolOrdering)
  {
  }

  // ---- numeric builtins ----------------------------------------------------------------------

  /** `abs` is the number or its opposite, whichever is not negative. */
  lemma AbsComputes(std: Std, val: Reading, v: Value)
    requires Exact(std, val) && (v.Int? || v.Float?) && v != Int(-9223372036854775808)
    ensures var x := Num(std, val, v).value;
            exists y: real :: Gives(std, val, ApplyPure(std, Abs, [v]), y) && y >= 0.0 && (y == x || y == -x)
  {
    var x := Num(std, val, v).value;
    var y := if x < 0.0 then -x else x;
    assert Gives(std, val, ApplyPure(std, Abs, [v]), y);
  }

  /** `int` drops the fraction, `float` keeps the number. */
  lemma CoercionsCompute(std: Std, val: Reading, v: Value)
    requires Exact(std, val) && Num(std, val, v).Some?
    ensures var r := ApplyPure(std, ToInt, [v]); r.Ok? && r.value.Int? && Truncates(Num(std, val, v).value, r.value.n)
    ensures Gives(std, val, ApplyPure(std, ToFloat, [v]), Num(std, val, v).value)
  {
    Coerces(std, val, v);
  }

  /** The nearest integer; of two the one farther from zero. */
  ghost predicate Nearest(x: real, n: int) {
    if x >= 0.0 then x - 0.5 < n as real <= x + 0.5 else x - 0.5 <= n as real < x + 0.5
  }

  /** `round` gives the nearest integer, halves away from zero. */
  lemma RoundComputes(std: Std, val: Reading, v: Value)
    requires Exact(std, val) && Num(std, val, v).Some?
    requires -9223372036854775807.0 < Num(std, val, v).value < 9223372036854775807.0
    ensures var r := ApplyPure(std, Round, [v]); r.Ok? && r.value.Int? && Nearest(Num(std, val, v).value, r.value.n)
  {
    Coerces(std, val, v);
    RoundsNear(std, val, AsF64(std, v).value);
  }

  lemma RoundsNear(std: Std, val: Reading, x: F64)
    requires Exact(std, val) && -9223372036854775807.0 < val(x) < 9223372036854775807.0
    ensures Nearest(val(x), std.toInt(RoundHalfAway(std, x)))
  {
    if val(x) >= 0.0 {
      var up := std.add(x, std.half);
      assert val(up) == val(x) + 0.5;
      WholeStays(std, val, std.toInt(up));
    } else {
      var up := std.add(std.neg(x), std.half);
      assert val(up) == 0.5 - val(x);
      WholeStays(std, val, std.toInt(up));
    }
  }

  /** A whole number keeps its value through a float and back, and so does its opposite. */
  lemma WholeStays(std: Std, val: Reading, n: i64)
    requires Exact(std, val) && n >= 0
    ensures std.toInt(std.ofInt(n)) == n && std.toInt(std.neg(std.ofInt(n))) == -n
  {
    var f := std.ofInt(n);
    assert val(f) == n as real && val(std.neg(f)) == -(n as real);
    assert Truncates(val(f), std.toInt(f)) && Truncates(val(std.neg(f)), std.toInt(std.neg(f)));
  }

  // ---- sums ----------------------------------------------------------------------------------

  /** The sum of a list of numbers, from the back. */
  ghost function Total(std: Std, val: Reading, items: seq<Value>): real {
    if items == [] then 0.0
    else
      var last := Num(std, val, items[|items| - 1]);
      Total(std, val, items[..|items| - 1]) + if last.Some? then last.value else 0.0
  }

  lemma {:induction false} TotalFront(std: Std, val: Reading, items: seq<Value>)
    requires items != []
    ensures var first := Num(std, val, items[0]);
            Total(std, val, items) == (if first.Some? then first.value else 0.0) + Total(std, val, items[1..])
  {
    hide Num;
    var n := |items| - 1;
    if n > 0 {
      TotalFront(std, val, items[..n]);
      assert items[..n][1..] == items[1..][..n - 1];
    } else {
      assert items[..n] == [] && items[1..] == [];
    }
  }

  /** The sum of two lists one behind the other is the sum of their sums. */
  lemma {:induction false} TotalBoth(std: Std, val: Reading, a: seq<Value>, b: seq<Value>)
    ensures Total(std, val, a + b) == Total(std, val, a) + Total(std, val, b)
  {
    hide Num;
    if b == [] {
      assert a + b == a;
    } else {
      var n := |b| - 1;
      TotalBoth(std, val, a, b[..n]);
      assert (a + b)[..|a + b| - 1] == a + b[..n];
    }
  }

  lemma {:induction false} SumFromComputes(std: Std, val: Reading, items: seq<Value>, i: i64, f: F64, anyFloat: bool)
    requires Exact(std, val) && (!anyFloat ==> val(f) == 0.0)
    ensures var r := SumFrom(std, items, i, f, anyFloat);
            && (r.Ok? ==> Gives(std, val, r, i as real + val(f) + Total(std, val, items)))
            && (r.Ok? ==> (r.value.Float? <==> anyFloat || exists k :: 0 <= k < |items| && items[k].Float?))
            && (r.Ok? ==> forall k | 0 <= k < |items| :: items[k].Int? || items[k].Float?)
            && (r.Err? ==> r == Err(Panic) || r == Bad(ListOfNumbers))
            && (r == Bad(ListOfNumbers) ==> exists k :: 0 <= k < |items| && !items[k].Int? && !items[k].Float?)
    decreases |items|
  {
    hide Exact;
    if items == [] {
      SumsEnd(std, val, i, f);
    } else {
      TotalFront(std, val, items);
      SumsEnd(std, val, i, f);
      var rest := items[1..];
      assert forall k | 0 <= k < |items| :: items[k] == if k == 0 then items[0] else rest[k - 1];
      if items[0].Int? {
        var n := i + items[0].n;
        if -9223372036854775808 <= n <= 9223372036854775807 { SumFromComputes(std, val, rest, n, f, anyFloat); }
      } else if items[0].Float? {
        FloatsCompute(std, val, f, items[0].x);
        SumFromComputes(std, val, rest, i, std.add(f, items[0].x), true);
      }
      assert forall k | 0 <= k < |rest| :: rest[k] == items[k + 1];
    }
  }

  lemma SumsEnd(std: Std, val: Reading, i: i64, f: F64)
    requires Exact(std, val)
    ensures val(std.add(f, std.ofInt(i))) == val(f) + i as real
  {
  }

  /** `sum` gives the sum, a float when any item is one; the rest are errors, or an integer sum that does not fit. */
  lemma SumComputes(std: Std, val: Reading, items: seq<Value>)
    requires Exact(std, val)
    ensures var r := ApplyPure(std, Sum, [List(items)]);
            && (r.Ok? ==> Gives(std, val, r, Total(std, val, items)))
            && (r.Ok? ==> (r.value.Float? <==> exists k :: 0 <= k < |items| && items[k].Float?))
            && (r.Err? ==> r == Err(Panic) || r == Bad(ListOfNumbers))
            && (r == Bad(ListOfNumbers) ==> exists k :: 0 <= k < |items| && !items[k].Int? && !items[k].Float?)
            && (r.Ok? ==> forall k | 0 <= k < |items| :: items[k].Int? || items[k].Float?)
  {
    hide SumFrom, Exact;
    NoFloats(std, val);
    SumFromComputes(std, val, items, 0, std.ofInt(0), false);
  }

  lemma NoFloats(std: Std, val: Reading)
    requires Exact(std, val)
    ensures val(std.ofInt(0)) == 0.0
  {
  }

  /** The integers of a list, added up. */
  function IntPart(items: seq<Value>): int {
    if items == [] then 0 else (if items[0].Int? then items[0].n as int else 0) + IntPart(items[1..])
  }

  /** The first `k` items are numbers whose integers, with `i`, add up to more than 64 bits hold. */
  ghost predicate OverflowsAt(items: seq<Value>, i: int, k: nat) {
    && k <= |items| && (forall n | 0 <= n < k :: items[n].Int? || items[n].Float?)
    && !(-9223372036854775808 <= i + IntPart(items[..k]) <= 9223372036854775807)
  }

  lemma OverflowsLater(items: seq<Value>, i: int, k: nat)
    requires items != [] && (items[0].Int? || items[0].Float?) && k < |items|
    ensures OverflowsAt(items, i, k + 1) <==>
            OverflowsAt(items[1..], i + if items[0].Int? then items[0].n else 0, k)
  {
    var rest := items[1..];
    assert items[..k + 1][1..] == rest[..k] && items[..k + 1][0] == items[0];
    assert forall n | 0 <= n < k :: rest[n] == items[n + 1];
    assert forall n | 0 < n < k + 1 :: items[n] == rest[n - 1];
  }

  lemma {:induction false} SumFromPanics(std: Std, items: seq<Value>, i: i64, f: F64, anyFloat: bool)
    ensures SumFrom(std, items, i, f, anyFloat) == Err(Panic) <==> exists k: nat :: OverflowsAt(items, i, k)
    decreases |items|
  {
    hide OverflowsAt;
    NothingOverflows(items, i);
    if items != [] && (items[0].Int? || items[0].Float?) {
      var rest := items[1..];
      var n: int := i + if items[0].Int? then items[0].n else 0;
      forall k: nat | k < |items| ensures OverflowsAt(items, i, k + 1) <==> OverflowsAt(rest, n, k) { OverflowsLater(items, i, k); }
      OnlyInside(items, i);
      OnlyInside(rest, n);
      NowOverflows(rest, n);
      if items[0].Float? {
        SumFromPanics(std, rest, i, std.add(f, items[0].x), true);
      } else if -9223372036854775808 <= n <= 9223372036854775807 {
        SumFromPanics(std, rest, n, f, anyFloat);
      }
      if k: nat :| OverflowsAt(items, i, k) { assert OverflowsAt(rest, n, k - 1); }
      if k: nat :| OverflowsAt(rest, n, k) { assert OverflowsAt(items, i, k + 1); }
    } else {
      NoneOverflow(items, i);
    }
  }

  lemma NothingOverflows(items: seq<Value>, i: i64)
    ensures !OverflowsAt(items, i, 0)
  {
    assert items[..0] == [];
  }

  lemma NowOverflows(items: seq<Value>, i: int)
    ensures OverflowsAt(items, i, 0) <==> !(-9223372036854775808 <= i <= 9223372036854775807)
  {
    assert items[..0] == [];
  }

  lemma OnlyInside(items: seq<Value>, i: int)
    ensures forall k: nat | OverflowsAt(items, i, k) :: k <= |items|
  {
  }

  lemma NoneOverflow(items: seq<Value>, i: i64)
    requires items == [] || !(items[0].Int? || items[0].Float?)
    ensures forall k: nat :: !OverflowsAt(items, i, k)
  {
    assert items[..0] == [];
  }

  /** It aborts exactly when the integers up to some point do not fit. */
  lemma SumPanicsExactly(std: Std, items: seq<Value>)
    ensures ApplyPure(std, Sum, [List(items)]) == Err(Panic) <==> exists k: nat :: OverflowsAt(items, 0, k)
  {
    hide SumFrom, OverflowsAt;
    SumFromPanics(std, items, 0, std.ofInt(0), false);
  }

  // ---- least and greatest --------------------------------------------------------------------

  /** `v` is the first of the items that none of them is less than (or greater than). */
  ghost predicate FirstBest(std: Std, val: Reading, wantMin: bool, items: seq<Value>, v: Value) {
    exists k: nat :: BestAt(std, val, wantMin, items, v, k)
  }

  ghost predicate BestAt(std: Std, val: Reading, wantMin: bool, items: seq<Value>, v: Value, k: nat) {
    && k < |items| && items[k] == v
    && (forall i | 0 <= i < |items| :: Num(std, val, items[i]).Some?)
    && (forall i | 0 <= i < |items| ::
          if wantMin then Num(std, val, v).value <= Num(std, val, items[i]).value
          else Num(std, val, v).value >= Num(std, val, items[i]).value)
    && (forall i | 0 <= i < k :: Num(std, val, items[i]) != Num(std, val, v))
  }

  lemma {:induction false} ExtremeComputes(std: Std, val: Reading, wantMin: bool, done: seq<Value>, best: Value, bestF: F64, items: seq<Value>)
    requires Exact(std, val) && FirstBest(std, val, wantMin, done, best) && Num(std, val, best) == Some(val(bestF))
    ensures var r := Extreme(std, wantMin, best, bestF, items);
            if r.Ok? then FirstBest(std, val, wantMin, done + items, r.value)
            else exists k :: 0 <= k < |items| && Num(std, val, items[k]).None?
    decreases |items|
  {
    hide Exact, FirstBest, Num;
    if items == [] {
      assert done + items == done;
    } else {
      var v, rest := items[0], items[1..];
      Coerces(std, val, v);
      assert forall k | 0 <= k < |rest| :: rest[k] == items[k + 1];
      if AsF64(std, v).Ok? {
        var x := AsF64(std, v).value;
        FloatsCompute(std, val, x, bestF);
        FloatsCompute(std, val, bestF, x);
        OneMore(std, val, wantMin, done, best, v);
        assert done + items == (done + [v]) + rest;
        if if wantMin then std.lt(x, bestF) else std.lt(bestF, x) {
          ExtremeComputes(std, val, wantMin, done + [v], v, x, rest);
        } else {
          ExtremeComputes(std, val, wantMin, done + [v], best, bestF, rest);
        }
      }
    }
  }

  lemma OneMore(std: Std, val: Reading, wantMin: bool, done: seq<Value>, best: Value, v: Value)
    requires FirstBest(std, val, wantMin, done, best) && Num(std, val, v).Some?
    ensures Num(std, val, best).Some?
    ensures var x, y := Num(std, val, v).value, Num(std, val, best).value;
            FirstBest(std, val, wantMin, done + [v], if if wantMin then x < y else y < x then v else best)
  {
    hide Num;
    var k: nat :| BestAt(std, val, wantMin, done, best, k);
    var x, y := Num(std, val, v).value, Num(std, val, best).value;
    var more := done + [v];
    assert forall i | 0 <= i < |more| :: more[i] == if i < |done| then done[i] else v;
    if if wantMin then x < y else y < x {
      assert BestAt(std, val, wantMin, more, v, |done|);
    } else {
      assert BestAt(std, val, wantMin, more, best, k);
    }
  }

  /** `min` and `max`, of a list or of several arguments, give the first of the least or greatest. */
  lemma MinMaxComputes(std: Std, val: Reading, wantMin: bool, items: seq<Value>)
    requires Exact(std, val) && items != []
    ensures var r := ApplyPure(std, if wantMin then Min else Max, [List(items)]);
            && (r.Ok? ==> FirstBest(std, val, wantMin, items, r.value))
            && (r.Err? <==> exists k :: 0 <= k < |items| && Num(std, val, items[k]).None?)
            && (|items| > 1 ==> ApplyPure(std, if wantMin then Min else Max, items) == r)
  {
    hide Exact, Num, Extreme;
    Coerces(std, val, items[0]);
    if AsF64(std, items[0]).Ok? {
      var rest := items[1..];
      assert BestAt(std, val, wantMin, [items[0]], items[0], 0);
      assert [items[0]] + rest == items;
      assert forall k | 0 <= k < |rest| :: rest[k] == items[k + 1];
      ExtremeComputes(std, val, wantMin, [items[0]], items[0], AsF64(std, items[0]).value, rest);
    }
  }

  // ---- positions -----------------------------------------------------------------------------

  /** The first item that is the number `x`. */
  ghost predicate FirstEqual(std: Std, val: Reading, items: seq<Value>, x: real, k: nat) {
    && k < |items| && Num(std, val, items[k]) == Some(x) && forall i | 0 <= i < k :: Num(std, val, items[i]) != Some(x)
  }

  lemma {:induction false} PositionComputes(std: Std, val: Reading, items: seq<Value>, x: F64)
    requires Exact(std, val)
    ensures var k := PositionOf(std, items, x);
            if k < 0 then k == -1 && forall i | 0 <= i < |items| :: Num(std, val, items[i]) != Some(val(x))
            else FirstEqual(std, val, items, val(x), k)
  {
    hide Exact, Num;
    if items != [] {
      Coerces(std, val, items[0]);
      var rest := items[1..];
      PositionComputes(std, val, rest, x);
      assert forall i | 0 <= i < |items| :: items[i] == if i == 0 then items[0] else rest[i - 1];
      if AsF64(std, items[0]).Ok? { FloatsCompute(std, val, AsF64(std, items[0]).value, x); }
    }
  }

  /** `index` is the first position of a number, `in` asks whether there is one, and `before` compares two. */
  lemma PositionsCompute(std: Std, val: Reading, items: seq<Value>, a: Value, b: Value)
    requires Exact(std, val) && Num(std, val, a).Some? && Num(std, val, b).Some? && |items| <= 9223372036854775807
    ensures var r := ApplyPure(std, IndexOf, [List(items), a]);
            && r.Ok? && r.value.Int?
            && (if r.value.n < 0 then r.value.n == -1 && forall i | 0 <= i < |items| :: Num(std, val, items[i]) != Num(std, val, a)
                else FirstEqual(std, val, items, Num(std, val, a).value, r.value.n))
            && ApplyPure(std, Contains, [List(items), a]) == Ok(Bool(r.value.n >= 0))
    ensures ApplyPure(std, Before, [List(items), a, b]) ==
            Ok(Bool(exists i: nat, j: nat :: FirstEqual(std, val, items, Num(std, val, a).value, i) &&
                                   FirstEqual(std, val, items, Num(std, val, b).value, j) && i < j))
  {
    hide Exact, Num, PositionOf, FirstEqual;
    Coerces(std, val, a);
    Coerces(std, val, b);
    var x, y := AsF64(std, a).value, AsF64(std, b).value;
    PositionComputes(std, val, items, x);
    PositionComputes(std, val, items, y);
    FirstIsOne(std, val, items, val(x));
    FirstIsOne(std, val, items, val(y));
    Needed(std, val, items, val(x));
    Needed(std, val, items, val(y));
  }

  lemma FirstIsOne(std: Std, val: Reading, items: seq<Value>, x: real)
    ensures forall i: nat, j: nat | FirstEqual(std, val, items, x, i) && FirstEqual(std, val, items, x, j) :: i == j
  {
    hide Num;
  }

  lemma Needed(std: Std, val: Reading, items: seq<Value>, x: real)
    ensures (forall i | 0 <= i < |items| :: Num(std, val, items[i]) != Some(x)) ==>
              forall i: nat :: !FirstEqual(std, val, items, x, i)
  {
    hide Num;
  }
}
