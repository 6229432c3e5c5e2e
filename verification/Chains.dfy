/**
 Chained comparisons. `a < b in c` is compiled to a conjunction that repeats the inner operands; here it
 is compared with evaluating each operand once, from left to right, up to the first link that fails.
 */
module Chains {
  import opened Values
  import opened Ir
  import opened Ops
  import opened Parse
  import opened Limits
  import Sync

  /** No call on a capability of the host. */
  predicate Quiet(e: Expr)
    decreases e, 1
  {
    match e
    case Bin(_, a, b) => Quiet(a) && Quiet(b)
    case Cmp(_, a, b) => Quiet(a) && Quiet(b)
    case Logic(_, a, b) => Quiet(a) && Quiet(b)
    case Unary(_, a) => Quiet(a)
    case Index(a, b) => Quiet(a) && Quiet(b)
    case If(c, t, f) => Quiet(c) && Quiet(t) && Quiet(f)
    case Call(b, args) => !b.FetchUrl? && !b.FetchJson? && !b.Show? && !b.Led? && !b.Flash? && AllQuiet(args)
    case ListOf(args) => AllQuiet(args)
    case _ => true
  }

  predicate AllQuiet(args: seq<Expr>)
    decreases args, 0
  {
    forall i | 0 <= i < |args| :: Quiet(args[i])
  }

  lemma {:induction false} QuietLog(h: Host, locals: seq<Value>, e: Expr, log: seq<Event>)
    requires Quiet(e)
    ensures Ideal(h, locals, e, log).log == log
    decreases e, 1
  {
    hide Ideal, IdealAll, NumBinop, Compare, IndexInto, ApplyUnary, AsBool, Sync.Dispatch, Built, After;
    IdealLog(h, locals, e, log);
    match e
    case Bin(_, a, b) => QuietBoth(h, locals, a, b, log, e);
    case Cmp(_, a, b) => QuietBoth(h, locals, a, b, log, e);
    case Logic(_, a, b) => QuietBoth(h, locals, a, b, log, e);
    case Index(a, b) => QuietBoth(h, locals, a, b, log, e);
    case Unary(_, a) => QuietLog(h, locals, a, log);
    case If(c, t, f) => QuietBoth(h, locals, c, t, log, e); QuietBoth(h, locals, c, f, log, e);
    case Call(b, args) =>
      QuietAll(h, locals, args, 0, [], log);
      var vs := IdealAll(h, locals, args, 0, [], log);
      if vs.out.Ok? { PureDispatch(h, b, vs.out.value, log); }
    case ListOf(args) => QuietAll(h, locals, args, 0, [], log);
    case _ =>
  }

  lemma IdealLog(h: Host, locals: seq<Value>, e: Expr, log: seq<Event>)
    ensures Ideal(h, locals, e, log).log == IdealNode(h, locals, e, log).log
    ensures Ideal(h, locals, e, log).out == IdealNode(h, locals, e, log).out
    ensures forall n: nat, b: nat, c: Cost<Value> :: After(n, b, c).log == c.log && After(n, b, c).out == c.out
    ensures forall c: Cost<Value> :: Built(h, c).log == c.log && Built(h, c).out == c.out
  {
    hide IdealNode;
  }

  lemma PureDispatch(h: Host, b: Builtin, vals: seq<Value>, log: seq<Event>)
    requires !b.FetchUrl? && !b.FetchJson? && !b.Show? && !b.Led? && !b.Flash?
    ensures Sync.Dispatch(h, b, vals, log) == Effect(ApplyPure(h.std, b, vals), log)
  {
    hide ApplyPure;
  }

  lemma {:induction false} QuietBoth(h: Host, locals: seq<Value>, a: Expr, b: Expr, log: seq<Event>, whole: Expr)
    requires Quiet(a) && Quiet(b) && a < whole && b < whole
    ensures Ideal(h, locals, a, log).log == log && Ideal(h, locals, b, log).log == log
    decreases whole, 0
  {
    QuietLog(h, locals, a, log);
    QuietLog(h, locals, b, log);
  }

  lemma {:induction false} QuietAll(h: Host, locals: seq<Value>, args: seq<Expr>, i: nat, done: seq<Value>, log: seq<Event>)
    requires AllQuiet(args)
    ensures IdealAll(h, locals, args, i, done, log).log == log
    decreases args, if i <= |args| then |args| - i else 0
  {
    hide Ideal, Quiet;
    if i < |args| {
      assert Quiet(args[i]);
      QuietLog(h, locals, args[i], log);
      var x := Ideal(h, locals, args[i], log);
      if x.out.Ok? { QuietAll(h, locals, args, i + 1, done + [x.out.value], log); }
    }
  }

  // ---- each operand once ---------------------------------------------------------------------

  /** Where the chain is evaluated. */
  datatype Site = Site(h: Host, locals: seq<Value>, log: seq<Event>)

  function ValueOf(s: Site, e: Expr): Result<Value> { Ideal(s.h, s.locals, e, s.log).out }

  /** Whether a link holds between two values. */
  function LinkHolds(std: Std, k: Link, x: Value, y: Value): Result<bool> {
    match k
    case Ordered(op) => Compare(std, op, x, y)
    case InList => Member(std, y, x)
    case NotInList =>
      var r := Member(std, y, x);
      if r.Err? then r else Ok(!r.value)
  }

  function Member(std: Std, list: Value, x: Value): Result<bool> {
    var r := ContainsFn(std, [list, x]);
    if r.Err? then Err(r.error) else Ok(r.value.Bool? && r.value.b)
  }

  /** The links from `i` on, when `left` is the value of operand `i`. */
  function Walk(s: Site, operands: seq<Expr>, links: seq<Link>, i: nat, left: Value): Result<Value>
    requires i <= |links| && |operands| == |links| + 1
    decreases |links| - i
  {
    if i == |links| then Ok(Bool(true))
    else
      var right := ValueOf(s, operands[i + 1]);
      if right.Err? then Err(right.error)
      else
        var r := LinkHolds(s.h.std, links[i], left, right.value);
        if r.Err? then Err(r.error)
        else if !r.value then Ok(Bool(false))
        else Walk(s, operands, links, i + 1, right.value)
  }

  /** The chain with every operand evaluated at most once. */
  function Once(s: Site, operands: seq<Expr>, links: seq<Link>): Result<Value>
    requires |operands| == |links| + 1
  {
    var first := ValueOf(s, operands[0]);
    if first.Err? then first else Walk(s, operands, links, 0, first.value)
  }

  /** The first two operands both fail, differently, and the first link looks at the second one first. */
  predicate Reordered(s: Site, operands: seq<Expr>, links: seq<Link>)
    requires links != [] && |operands| == |links| + 1
  {
    var a, b := ValueOf(s, operands[0]), ValueOf(s, operands[1]);
    !links[0].Ordered? && a.Err? && b.Err? && a.error != b.error
  }

  // ---- the conjunction -----------------------------------------------------------------------

  lemma ContainsIdeal(s: Site, list: Expr, x: Expr)
    requires Quiet(list) && Quiet(x)
    ensures var l, v := ValueOf(s, list), ValueOf(s, x);
            ValueOf(s, Call(Contains, [list, x])) ==
            if l.Err? then l else if v.Err? then v else ContainsFn(s.h.std, [l.value, v.value])
  {
    hide Ideal, Sync.Dispatch, Quiet, ContainsFn;
    var args := [list, x];
    IdealLog(s.h, s.locals, Call(Contains, args), s.log);
    QuietLog(s.h, s.locals, list, s.log);
    QuietLog(s.h, s.locals, x, s.log);
    var l, v := Ideal(s.h, s.locals, list, s.log), Ideal(s.h, s.locals, x, s.log);
    if l.out.Ok? && v.out.Ok? {
      assert [] + [l.out.value] + [v.out.value] == [l.out.value, v.out.value];
      assert IdealAll(s.h, s.locals, args, 2, [l.out.value, v.out.value], s.log).out == Ok([l.out.value, v.out.value]);
      assert IdealAll(s.h, s.locals, args, 1, [] + [l.out.value], s.log).out == Ok([l.out.value, v.out.value]);
      PureDispatch(s.h, Contains, [l.out.value, v.out.value], s.log);
    } else if l.out.Ok? {
      assert IdealAll(s.h, s.locals, args, 1, [] + [l.out.value], s.log).out == Err(v.out.error);
    }
  }

  /** The value of one link, given the values of its operands. */
  lemma TermIdeal(s: Site, k: Link, a: Expr, b: Expr)
    requires Quiet(a) && Quiet(b)
    requires var x, y := ValueOf(s, a), ValueOf(s, b); k.Ordered? || x.Ok? || y.Ok? || x == y
    ensures var x, y, t := ValueOf(s, a), ValueOf(s, b), ValueOf(s, LinkTerm(k, a, b));
            if x.Err? then t == x
            else if y.Err? then t == y
            else
              var r := LinkHolds(s.h.std, k, x.value, y.value);
              t == if r.Err? then Err(r.error) else Ok(Bool(r.value))
  {
    hide Ideal, Quiet, Compare, PositionOf, AsF64;
    QuietLog(s.h, s.locals, a, s.log);
    if k.Ordered? {
      IdealLog(s.h, s.locals, LinkTerm(k, a, b), s.log);
    } else {
      ContainsIdeal(s, b, a);
      if k.NotInList? { NotIdeal(s, Call(Contains, [b, a])); }
    }
  }

  lemma NotIdeal(s: Site, e: Expr)
    ensures var v := ValueOf(s, e);
            ValueOf(s, Unary(Not, e)) == if v.Err? then v else Ok(Bool(!AsBool(s.h.std, v.value)))
  {
    hide Ideal, AsBool;
    IdealLog(s.h, s.locals, Unary(Not, e), s.log);
  }

  lemma AndIdeal(s: Site, a: Expr, b: Expr)
    requires Ideal(s.h, s.locals, a, s.log).log == s.log
    ensures var x, y := ValueOf(s, a), ValueOf(s, b);
            ValueOf(s, Logic(And, a, b)) ==
            if x.Err? then x
            else if !AsBool(s.h.std, x.value) then Ok(Bool(false))
            else if y.Err? then y
            else Ok(Bool(AsBool(s.h.std, y.value)))
  {
    hide Ideal, AsBool;
    IdealLog(s.h, s.locals, Logic(And, a, b), s.log);
  }

  lemma {:induction false} ChainQuiet(operands: seq<Expr>, links: seq<Link>, n: nat)
    requires 1 <= n <= |links| && |operands| == |links| + 1 && AllQuiet(operands)
    ensures Quiet(ChainOf(operands, links, n))
  {
    var a, b := operands[n - 1], operands[n];
    assert AllQuiet([b, a]);
    assert Quiet(LinkTerm(links[n - 1], a, b));
    if n > 1 { ChainQuiet(operands, links, n - 1); }
  }

  /** What the conjunction of the first `n` links says about the chain. */
  lemma {:induction false} PrefixAgrees(s: Site, operands: seq<Expr>, links: seq<Link>, n: nat)
    requires 1 <= n <= |links| && |operands| == |links| + 1 && AllQuiet(operands)
    requires !Reordered(s, operands, links)
    ensures var c := ValueOf(s, ChainOf(operands, links, n));
            if c.Err? || c == Ok(Bool(false)) then Once(s, operands, links) == c
            else
              c == Ok(Bool(true)) && ValueOf(s, operands[n]).Ok? &&
              Once(s, operands, links) == Walk(s, operands, links, n, ValueOf(s, operands[n]).value)
  {
    hide ValueOf, LinkHolds, LinkTerm, Quiet;
    var a, b := operands[n - 1], operands[n];
    assert Quiet(a) && Quiet(b);
    if n == 1 {
      TermIdeal(s, links[0], a, b);
    } else {
      PrefixAgrees(s, operands, links, n - 1);
      var before := ChainOf(operands, links, n - 1);
      ChainQuiet(operands, links, n - 1);
      QuietLog(s.h, s.locals, before, s.log);
      AndIdeal(s, before, LinkTerm(links[n - 1], a, b));
      if ValueOf(s, before) == Ok(Bool(true)) {
        TermIdeal(s, links[n - 1], a, b);
      }
    }
  }

  /**
   For operands without effects and any number of links, the compiled chain gives the value or error of
   the chain that evaluates each operand once, exactly unless the first link is a membership test whose
   two operands both fail with different errors.
   */
  lemma ChainMeaning(s: Site, operands: seq<Expr>, links: seq<Link>)
    requires links != [] && |operands| == |links| + 1 && AllQuiet(operands)
    ensures ValueOf(s, ChainOf(operands, links, |links|)) == Once(s, operands, links)
            <==> !Reordered(s, operands, links)
  {
    hide ValueOf, LinkHolds, Quiet, Walk;
    if Reordered(s, operands, links) {
      ReorderedError(s, operands, links, |links|);
    } else {
      PrefixAgrees(s, operands, links, |links|);
      WalkEnds(s, operands, links, ValueOf(s, operands[|links|]));
    }
  }

  lemma WalkEnds(s: Site, operands: seq<Expr>, links: seq<Link>, v: Result<Value>)
    requires |operands| == |links| + 1
    ensures v.Ok? ==> Walk(s, operands, links, |links|, v.value) == Ok(Bool(true))
  {
  }

  /** In the exceptional case the second operand's error is reported. */
  lemma {:induction false} ReorderedError(s: Site, operands: seq<Expr>, links: seq<Link>, n: nat)
    requires 1 <= n <= |links| && |operands| == |links| + 1 && AllQuiet(operands)
    requires Reordered(s, operands, links)
    ensures ValueOf(s, ChainOf(operands, links, n)) == ValueOf(s, operands[1])
  {
    hide ValueOf, Quiet;
    var a, b := operands[n - 1], operands[n];
    assert Quiet(a) && Quiet(b);
    if n == 1 {
      ContainsIdeal(s, b, a);
      if links[0].NotInList? { NotIdeal(s, Call(Contains, [b, a])); }
    } else {
      ReorderedError(s, operands, links, n - 1);
      ChainQuiet(operands, links, n - 1);
      QuietLog(s.h, s.locals, ChainOf(operands, links, n - 1), s.log);
      AndIdeal(s, ChainOf(operands, links, n - 1), LinkTerm(links[n - 1], a, b));
    }
  }

  /** `(1 / 0) in (1 % 0)` reports the remainder, not the division. */
  lemma MembershipReportsRightFirst(s: Site)
    ensures var one, zero := Const(Int(1)), Const(Int(0));
            var quot, rem := Bin(BinOp.Div, one, zero), Bin(BinOp.Rem, one, zero);
            ValueOf(s, ChainOf([quot, rem], [InList], 1)) == Err(Type(ModuloByZero)) &&
            Once(s, [quot, rem], [InList]) == Err(Type(DivisionByZero))
  {
    var one, zero := Const(Int(1)), Const(Int(0));
    var quot, rem := Bin(BinOp.Div, one, zero), Bin(BinOp.Rem, one, zero);
    assert ValueOf(s, quot) == Err(Type(DivisionByZero));
    assert ValueOf(s, rem) == Err(Type(ModuloByZero));
    assert Quiet(quot) && Quiet(rem);
    ReorderedError(s, [quot, rem], [InList], 1);
  }
}
