/**
 What the integer operators, the comparison of strings and indexing mean, without the way they are computed:
 wrap-around arithmetic as a group counted in ones, products as repeated sums, division with remainder, the
 dictionary order, and positions from either end.
 */
module IntLaws {
  import opened Values
  import opened Ir
  import opened Ops

  const WORD64: int := 18446744073709551616

  /** The integer an operation gives. */
  ghost predicate Gives(r: Result<Value>, n: int) { r.Ok? && r.value.Int? && r.value.n == n }

  ghost predicate GivesInt(r: Result<Value>) { r.Ok? && r.value.Int? }

  /** Equal up to multiples of 2^64. */
  ghost predicate Congruent(a: int, b: int) { exists k: int :: a == b + k * WORD64 }

  lemma WrapIs(n: int)
    ensures Congruent(Wrap64(n), n)
    ensures -9223372036854775808 <= n <= 9223372036854775807 ==> Wrap64(n) == n
  {
    var k := n / WORD64;
    assert n == k * WORD64 + n % WORD64;
    assert Wrap64(n) == n + -k * WORD64 || Wrap64(n) == n + (-k - 1) * WORD64;
  }

  /** Two 64-bit integers that agree up to multiples of 2^64 are one. */
  lemma OnlyOne(a: i64, b: i64)
    requires Congruent(a, b)
    ensures a == b
  {
    var k: int :| a == b + k * WORD64;
  }

  lemma CongruentBoth(a: int, b: int, c: int, d: int)
    requires Congruent(a, b) && Congruent(c, d)
    ensures Congruent(a + c, b + d) && Congruent(a - c, b - d) && Congruent(b, a)
  {
    var k: int, l: int :| a == b + k * WORD64 && c == d + l * WORD64;
    assert a + c == b + d + (k + l) * WORD64;
    assert a - c == b - d + (k - l) * WORD64;
    assert b == a + -k * WORD64;
  }

  lemma CongruentThrough(a: int, b: int, c: int)
    requires Congruent(a, b) && Congruent(b, c)
    ensures Congruent(a, c)
  {
    var k: int, l: int :| a == b + k * WORD64 && b == c + l * WORD64;
    assert a == c + (k + l) * WORD64;
  }

  lemma Itself(a: int)
    ensures Congruent(a, a)
  {
    assert a == a + 0 * WORD64;
  }

  // ---- sums and differences ------------------------------------------------------------------

  function Plus(x: i64, y: i64): (r: i64)
    ensures Gives(IntBinop(BinOp.Add, x, y), r)
  {
    IntBinop(BinOp.Add, x, y).value.n
  }

  function Minus(x: i64, y: i64): (r: i64)
    ensures Gives(IntBinop(BinOp.Sub, x, y), r)
  {
    IntBinop(BinOp.Sub, x, y).value.n
  }

  function Times(x: i64, y: i64): (r: i64)
    ensures Gives(IntBinop(BinOp.Mul, x, y), r)
  {
    IntBinop(BinOp.Mul, x, y).value.n
  }

  /** Adding one is the next integer, and the least follows the greatest. */
  lemma AddCounts(a: i64)
    ensures Plus(a, 1) == if a == 9223372036854775807 then -9223372036854775808 else a + 1
    ensures Plus(a, 0) == a
  {
  }

  lemma AddIsSum(a: i64, b: i64)
    ensures Congruent(Plus(a, b), a + b)
  {
    WrapIs(a + b);
  }

  /** Addition is commutative and associative, wrap-around included. */
  lemma AddRegroups(a: i64, b: i64, c: i64)
    ensures Plus(a, b) == Plus(b, a) && Plus(Plus(a, b), c) == Plus(a, Plus(b, c))
  {
    hide Plus, Congruent;
    AddIsSum(a, b);
    AddIsSum(b, a);
    SameSum(a, b);
    var l, r := Plus(a, b), Plus(b, c);
    AddIsSum(b, c);
    AddIsSum(l, c);
    AddIsSum(a, r);
    Itself(a);
    Itself(c);
    CongruentBoth(l, a + b, c, c);
    CongruentBoth(a, a, r, b + c);
    CongruentThrough(Plus(l, c), l + c, a + b + c);
    CongruentThrough(Plus(a, r), a + r, a + b + c);
    CongruentBoth(Plus(a, r), a + b + c, 0, 0) by { Itself(0); }
    CongruentThrough(Plus(l, c), a + b + c, Plus(a, r));
    OnlyOne(Plus(l, c), Plus(a, r));
  }

  lemma SameSum(a: i64, b: i64)
    ensures Plus(a, b) == Plus(b, a)
  {
  }

  /** Subtraction undoes addition: taking away nothing changes nothing, and what was taken away can be added back. */
  lemma SubUndoesAdd(a: i64, b: i64)
    ensures Minus(a, 0) == a && Plus(Minus(a, b), b) == a
    ensures -9223372036854775808 <= a - b <= 9223372036854775807 ==> Minus(a, b) + b == a
  {
    WrapIs(a - b);
    Itself(b);
    CongruentBoth(Minus(a, b), a - b, b, b);
    AddIsSum(Minus(a, b), b);
    CongruentThrough(Plus(Minus(a, b), b), Minus(a, b) + b, a);
    OnlyOne(Plus(Minus(a, b), b), a);
  }

  // ---- products ------------------------------------------------------------------------------

  /** `x` added to itself `n` times. */
  function AddedUp(x: i64, n: nat): i64 { if n == 0 then 0 else Plus(AddedUp(x, n - 1), x) }

  lemma {:induction false} AddedUpIs(x: i64, n: nat)
    ensures Congruent(AddedUp(x, n), x * n)
  {
    hide Plus, Congruent;
    if n == 0 {
      Itself(0);
    } else {
      AddedUpIs(x, n - 1);
      Itself(x);
      CongruentBoth(AddedUp(x, n - 1), x * (n - 1), x, x);
      AddIsSum(AddedUp(x, n - 1), x);
      assert x * (n - 1) + x == x * n;
      CongruentThrough(AddedUp(x, n), AddedUp(x, n - 1) + x, x * n);
    }
  }

  lemma MulIsProduct(x: i64, y: i64)
    ensures Congruent(Times(x, y), x * y)
  {
    WrapIs(x * y);
  }

  /** A product is a repeated sum, and the opposite of one for a negative factor. */
  lemma MulAddsUp(x: i64, n: i64)
    requires n >= 0
    ensures Times(x, n) == AddedUp(x, n) && Times(n, x) == AddedUp(x, n)
    ensures Times(x, -n) == Minus(0, AddedUp(x, n))
  {
    hide Times, Congruent, Minus, AddedUp;
    var s := AddedUp(x, n);
    var product: int := x * n;
    AddedUpIs(x, n);
    Symmetric(s, product);
    MulIsProduct(x, n);
    MulIsProduct(n, x);
    Commutes(x, n);
    Meet(Times(x, n), product, s);
    Meet(Times(n, x), product, s);
    MulIsProduct(x, -n);
    Opposites(x, n);
    OppositeOf(s, product);
    Meet(Times(x, -n), 0 - product, Minus(0, s));
  }

  lemma Commutes(x: int, n: int)
    ensures n * x == x * n
  {
  }

  lemma OppositeOf(s: i64, product: int)
    requires Congruent(product, s)
    ensures Congruent(0 - product, Minus(0, s))
  {
    hide Congruent, Minus;
    var zero: int := 0;
    SubIs(0, s);
    Itself(zero);
    CongruentBoth(zero, zero, product, s);
    Symmetric(Minus(0, s), zero - s);
    CongruentThrough(zero - product, zero - s, Minus(0, s));
  }

  lemma Symmetric(a: int, b: int)
    requires Congruent(a, b)
    ensures Congruent(b, a)
  {
    CongruentBoth(a, b, a, b);
  }

  lemma Meet(a: i64, n: int, b: i64)
    requires Congruent(a, n) && Congruent(n, b)
    ensures a == b
  {
    hide Congruent;
    CongruentThrough(a, n, b);
    OnlyOne(a, b);
  }

  lemma Opposites(x: int, n: int)
    ensures x * -n == 0 - x * n && -x * n == 0 - x * n && -x * -n == x * n
  {
  }

  lemma SubIs(a: i64, b: i64)
    ensures Congruent(Minus(a, b), a - b)
  {
    WrapIs(a - b);
  }

  // ---- division ------------------------------------------------------------------------------

  /** The quotient and the remainder that rounds towards zero. */
  ghost predicate Divides(x: int, y: int, q: int, r: int) {
    x == y * q + r && (if r < 0 then -r else r) < (if y < 0 then -y else y) && (r != 0 ==> (r < 0 <==> x < 0))
  }

  /** There is one such pair. */
  lemma DividesOnce(x: int, y: int, q: int, r: int, q': int, r': int)
    requires Divides(x, y, q, r) && Divides(x, y, q', r')
    ensures q == q' && r == r'
  {
    assert y * (q - q') == r' - r by { assert y * (q - q') == y * q - y * q'; }
    var d := q - q';
    if d != 0 { BigStep(y, d); }
  }

  lemma BigStep(y: int, d: int)
    requires d != 0
    ensures (if y * d < 0 then -(y * d) else y * d) >= if y < 0 then -y else y
  {
    if y >= 0 && d > 0 { assert y * (d - 1) >= 0; }
    if y >= 0 && d < 0 { assert y * (-d - 1) >= 0; }
    if y < 0 && d > 0 { assert -y * (d - 1) >= 0; }
    if y < 0 && d < 0 { assert -y * (-d - 1) >= 0; }
  }

  lemma TruncDivides(x: int, y: int)
    requires y != 0
    ensures Divides(x, y, TruncDiv(x, y), TruncRem(x, y))
  {
    var a: int, b: int := AbsInt(x), AbsInt(y);
    var q: int := a / b;
    assert a == b * q + a % b;
    Opposites(b, q);
  }

  /**
   Division and remainder: an error exactly for a zero divisor, an abort exactly when the quotient does not fit,
   and otherwise the pair of them that rounds towards zero.
   */
  lemma DivisionLaw(x: i64, y: i64)
    ensures IntBinop(BinOp.Div, x, y) == Bad(DivisionByZero) <==> y == 0
    ensures IntBinop(BinOp.Rem, x, y) == Bad(ModuloByZero) <==> y == 0
    ensures IntBinop(BinOp.Div, x, y) == Err(Panic) <==> x == -9223372036854775808 && y == -1
    ensures IntBinop(BinOp.Rem, x, y) == Err(Panic) <==> x == -9223372036854775808 && y == -1
    ensures y != 0 && !(x == -9223372036854775808 && y == -1) ==>
              && GivesInt(IntBinop(BinOp.Div, x, y)) && GivesInt(IntBinop(BinOp.Rem, x, y))
              && Divides(x, y, IntBinop(BinOp.Div, x, y).value.n, IntBinop(BinOp.Rem, x, y).value.n)
  {
    hide Divides, TruncDiv, TruncRem;
    if y != 0 {
      TruncDivides(x, y);
      QuotientFits(x, y);
    }
  }

  lemma QuotientFits(x: i64, y: i64)
    requires y != 0
    ensures -9223372036854775808 <= TruncRem(x, y) <= 9223372036854775807
    ensures -9223372036854775808 <= TruncDiv(x, y) <= 9223372036854775807 <==> !(x == -9223372036854775808 && y == -1)
  {
    hide TruncDiv, TruncRem;
    var q, r := TruncDiv(x, y), TruncRem(x, y);
    TruncDivides(x, y);
    if y != 1 && y != -1 { SmallQuotient(x, y, q, r); }
  }

  lemma SmallQuotient(x: i64, y: int, q: int, r: int)
    requires Divides(x, y, q, r) && (y >= 2 || y <= -2)
    ensures -9223372036854775808 < q <= 9223372036854775807
  {
    hide Divides;
    var t := y * q;
    if q != 0 {
      BigStep(y, q);
      NotFurther(x, y, q, t, r);
      TwiceInside(y, q, t);
    }
  }

  lemma NotFurther(x: int, y: int, q: int, t: int, r: int)
    requires Divides(x, y, q, r) && t == y * q && (if t < 0 then -t else t) >= if y < 0 then -y else y
    ensures (if t < 0 then -t else t) <= if x < 0 then -x else x
  {
  }

  lemma TwiceInside(y: int, q: int, t: int)
    requires (y >= 2 || y <= -2) && t == y * q
    ensures (if q < 0 then -q else q) * 2 <= if t < 0 then -t else t
  {
    var a, b: int := if q < 0 then -q else q, if y < 0 then -y else y;
    Opposites(b, a);
    AtLeastTwice(a, b);
  }

  lemma AtLeastTwice(a: int, b: int)
    requires a >= 0 && b >= 2
    ensures b * a >= a + a
  {
    assert (b - 2) * a >= 0;
  }

  /** Negation is its own inverse and adds up to nothing; only the least integer has none. */
  lemma NegationLaw(std: Std, a: i64)
    ensures ApplyUnary(std, Neg, Int(a)) == Err(Panic) <==> a == -9223372036854775808
    ensures a != -9223372036854775808 ==>
              && GivesInt(ApplyUnary(std, Neg, Int(a)))
              && Plus(ApplyUnary(std, Neg, Int(a)).value.n, a) == 0
              && ApplyUnary(std, Neg, ApplyUnary(std, Neg, Int(a)).value) == Ok(Int(a))
  {
  }

  // ---- the order of strings ------------------------------------------------------------------

  /** Strings are ordered as in a dictionary: at the first difference, and a proper prefix first. */
  lemma {:induction false} DictionaryOrder(p: string, s: string, t: string)
    ensures TextLess(p, p + t) <==> t != []
    ensures !TextLess(p + t, p)
    ensures s != [] && t != [] && s[0] != t[0] ==> (TextLess(p + s, p + t) <==> s[0] < t[0])
  {
    if p == [] {
      assert p + s == s && p + t == t;
    } else {
      DictionaryOrder(p[1..], s, t);
      assert (p + s)[1..] == p[1..] + s && (p + t)[1..] == p[1..] + t;
    }
  }

  /** The order is total. */
  lemma {:induction false} TextTotal(a: string, b: string)
    ensures !(TextLess(a, b) && TextLess(b, a))
    ensures a == b <==> !TextLess(a, b) && !TextLess(b, a)
  {
    if a != [] && b != [] {
      TextTotal(a[1..], b[1..]);
      assert a == [a[0]] + a[1..] && b == [b[0]] + b[1..];
    }
  }

  lemma {:induction false} TextTransitive(a: string, b: string, c: string)
    requires TextLess(a, b) && TextLess(b, c)
    ensures TextLess(a, c)
  {
    if a != [] && a[0] == b[0] == c[0] { TextTransitive(a[1..], b[1..], c[1..]); }
  }

  /** Of two strings exactly one of less, equal and greater holds; the other three are put together from these. */
  lemma StringComparison(std: Std, a: string, b: string)
    ensures Compare(std, CmpOp.Eq, Str(a), Str(b)) == Ok(a == b)
    ensures var lt, gt, le, ge, ne := Compare(std, CmpOp.Lt, Str(a), Str(b)), Compare(std, CmpOp.Gt, Str(a), Str(b)),
              Compare(std, CmpOp.Le, Str(a), Str(b)), Compare(std, CmpOp.Ge, Str(a), Str(b)),
              Compare(std, CmpOp.Ne, Str(a), Str(b));
            && lt.Ok? && gt.Ok? && le.Ok? && ge.Ok? && ne.Ok?
            && (if a == b then !lt.value && !gt.value else lt.value != gt.value)
            && le.value == (lt.value || a == b) && ge.value == (gt.value || a == b) && ne.value == (a != b)
            && gt == Compare(std, CmpOp.Lt, Str(b), Str(a))
  {
    TextTotal(a, b);
  }

  // ---- indexing ------------------------------------------------------------------------------

  /** From the front by position, from the back by what is left, and nothing beyond either end. */
  lemma IndexingLaw(front: seq<Value>, x: Value, back: seq<Value>)
    ensures |front| <= 9223372036854775807 ==> IndexInto(List(front + [x] + back), Int(|front|)) == Ok(x)
    ensures |back| < 9223372036854775807 ==> IndexInto(List(front + [x] + back), Int(-1 - |back|)) == Ok(x)
  {
    var l := front + [x] + back;
    assert l[|front|] == x && |l| + (-1 - |back|) == |front|;
  }

  /** An index is in range exactly when it is less than the length, or no less than its opposite. */
  lemma IndexRange(l: seq<Value>, k: i64)
    ensures IndexInto(List(l), Int(k)).Ok? <==> -|l| <= k < |l|
    ensures IndexInto(List(l), Int(k)).Err? ==> IndexInto(List(l), Int(k)) == Bad(TypeFault.IndexOutOfRange)
  {
  }
}
