/**
 What the memory budget guarantees about a result: every string and every list spine nested anywhere in
 it fits the budget, unless it was already inside a constant of the program or a value of the host.
 */
module Bounds {
  import opened Bytes
  import opened Utf8
  import opened Values
  import opened Ir
  import opened Ops
  import Fetch
  import Json
  import Sync

  /** The byte limit, and which values were there before the run. */
  datatype Scope = Scope(h: Host, limit: nat, given: Value -> bool)

  /** What is inside a given value is given. */
  ghost predicate Closed(s: Scope) {
    forall v: Value :: s.given(v) && v.List? ==> forall i | 0 <= i < |v.items| :: s.given(v.items[i])
  }

  ghost predicate EnvGiven(s: Scope) {
    forall name: string :: s.h.env(name).Some? ==> s.given(s.h.env(name).value)
  }

  ghost predicate ConstsGiven(s: Scope, e: Expr)
    decreases e, 1
  {
    match e
    case Const(v) => s.given(v)
    case Var(_) => true
    case Local(_) => true
    case Bin(_, a, b) => ConstsGiven(s, a) && ConstsGiven(s, b)
    case Cmp(_, a, b) => ConstsGiven(s, a) && ConstsGiven(s, b)
    case Logic(_, a, b) => ConstsGiven(s, a) && ConstsGiven(s, b)
    case Unary(_, a) => ConstsGiven(s, a)
    case Index(a, b) => ConstsGiven(s, a) && ConstsGiven(s, b)
    case If(c, t, f) => ConstsGiven(s, c) && ConstsGiven(s, t) && ConstsGiven(s, f)
    case Call(_, args) => AllConstsGiven(s, args)
    case ListOf(args) => AllConstsGiven(s, args)
  }

  ghost predicate AllConstsGiven(s: Scope, args: seq<Expr>)
    decreases args, 0
  {
    forall i | 0 <= i < |args| :: ConstsGiven(s, args[i])
  }

  /** The value was given, or it fits the limit and so does everything inside it. */
  ghost predicate Held(s: Scope, v: Value)
    decreases v, 1
  {
    s.given(v) || (Footprint(s.h.valueSize, v) <= s.limit && Inside(s, v))
  }

  ghost predicate Inside(s: Scope, v: Value)
    decreases v, 0
  {
    v.List? ==> forall i | 0 <= i < |v.items| :: Held(s, v.items[i])
  }

  ghost predicate AllHeld(s: Scope, vs: seq<Value>) { forall i | 0 <= i < |vs| :: Held(s, vs[i]) }

  ghost predicate Sound(s: Scope) { Closed(s) && EnvGiven(s) && s.limit < U32_MAX }

  lemma ItemHeld(s: Scope, v: Value, i: nat)
    requires Closed(s) && Held(s, v) && v.List? && i < |v.items|
    ensures Held(s, v.items[i])
  {
  }

  lemma ItemsHeld(s: Scope, v: Value)
    requires Closed(s) && Held(s, v) && v.List?
    ensures AllHeld(s, v.items)
  {
    forall i | 0 <= i < |v.items| ensures Held(s, v.items[i]) { ItemHeld(s, v, i); }
  }

  lemma ScalarHeld(s: Scope, v: Value)
    requires v.Int? || v.Float? || v.Bool?
    ensures Held(s, v)
  {
  }

  // ---- builtins ------------------------------------------------------------------------------

  /** What an operation may return: a value whose inside is held, to be charged for its own size. */
  ghost predicate Sources(s: Scope, r: Result<Value>) {
    r.Ok? ==> Held(s, r.value) || Inside(s, r.value)
  }

  lemma {:induction false} ExtremeHeld(s: Scope, wantMin: bool, best: Value, bestF: F64, items: seq<Value>)
    requires Held(s, best) && AllHeld(s, items)
    ensures var r := Extreme(s.h.std, wantMin, best, bestF, items); r.Ok? ==> Held(s, r.value)
    decreases |items|
  {
    hide Held;
    if items != [] {
      var x := AsF64(s.h.std, items[0]);
      if x.Ok? {
        ExtremeHeld(s, wantMin, items[0], x.value, items[1..]);
        ExtremeHeld(s, wantMin, best, bestF, items[1..]);
      }
    }
  }

  lemma MinMaxHeld(s: Scope, wantMin: bool, vals: seq<Value>)
    requires Closed(s) && AllHeld(s, vals)
    ensures var r := MinMax(s.h.std, wantMin, vals); r.Ok? ==> Held(s, r.value)
  {
    hide Held, Extreme, Closed;
    if vals != [] && (|vals| > 1 || vals[0].List?) {
      if |vals| == 1 { ItemsHeld(s, vals[0]); }
      var items := if |vals| == 1 then vals[0].items else vals;
      if items != [] {
        var x := AsF64(s.h.std, items[0]);
        if x.Ok? { ExtremeHeld(s, wantMin, items[0], x.value, items[1..]); }
      }
    }
  }

  lemma OverListHeld(s: Scope, b: Builtin, v: Value)
    requires Closed(s) && Held(s, v) && v.List?
    requires b.Sum? || b.Any? || b.All? || b.First? || b.Last?
    ensures Sources(s, OverList(s.h.std, b, v.items))
  {
    hide SumFrom;
    ItemsHeld(s, v);
    if b.Sum? { SumIsScalar(s, v.items, 0, s.h.std.ofInt(0), false); }
  }

  lemma {:induction false} SumIsScalar(s: Scope, items: seq<Value>, i: i64, f: F64, anyFloat: bool)
    ensures var r := SumFrom(s.h.std, items, i, f, anyFloat); r.Ok? ==> r.value.Int? || r.value.Float?
    decreases |items|
  {
    if items != [] {
      if items[0].Int? && I64_MIN <= i + items[0].n <= I64_MAX {
        SumIsScalar(s, items[1..], i + items[0].n, f, anyFloat);
      } else if items[0].Float? {
        SumIsScalar(s, items[1..], i, s.h.std.add(f, items[0].x), true);
      }
    }
  }

  lemma Unary1Held(s: Scope, b: Builtin, v: Value)
    requires Closed(s) && Held(s, v)
    ensures Sources(s, Unary1(s.h.std, b, v))
  {
    hide AsF64, Held, RoundHalfAway, ToText, Closed, AbsInt;
    if v.List? {
      ItemsHeld(s, v);
    }
  }

  lemma PureHeld(s: Scope, b: Builtin, vals: seq<Value>)
    requires Closed(s) && AllHeld(s, vals)
    ensures Sources(s, ApplyPure(s.h.std, b, vals))
  {
    hide Held, MinMax, Closed, OverList, Unary1, JoinText, PositionOf, AsF64, Json.GetAt;
    if b.Min? || b.Max? {
      MinMaxHeld(s, b.Min?, vals);
    } else if b.JsonGet? && |vals| == 2 && vals[0].Str? && vals[1].Str? {
      GetIsScalar(s.h.std, vals[0].s, vals[1].s);
    } else if b.Contains? || b.IndexOf? || b.Before? || b.Print? || b.JsonGet? {
    } else if |vals| == 1 {
      if b.Sum? || b.Any? || b.All? || b.First? || b.Last? {
        if vals[0].List? { OverListHeld(s, b, vals[0]); }
      } else {
        Unary1Held(s, b, vals[0]);
      }
    }
  }

  /** The scanner only makes scalars. */
  lemma GetIsScalar(std: Std, text: string, path: string)
    ensures var r := Json.GetAt(std, text, path); r.Ok? ==> !r.value.List?
  {
    hide Json.DescendAt, Json.TokenEndAt, Json.UnquoteAt, Json.HasFloatMark, ParseI64;
  }

  lemma {:induction false} HitIsScalar(std: Std, path: string, bufs: seq<seq<Byte>>)
    ensures var r := Fetch.FirstHit(Fetch.JsonProbe(std, path), bufs); r.Some? ==> !r.value.List?
  {
    hide Json.GetAt;
    if bufs != [] {
      GetIsScalar(std, ValidPrefix(bufs[0]), path);
      HitIsScalar(std, path, bufs[1..]);
    }
  }

  lemma EffectHeld(s: Scope, b: Builtin, vals: seq<Value>, log: seq<Event>)
    requires Closed(s) && AllHeld(s, vals)
    ensures Sources(s, ApplyBuiltin(s.h.std, b, vals, s.h.display, s.h.actuator, log).out)
  {
    hide Held, Closed, ApplyPure, ToText, ColourOf, AsBool;
    if !b.Show? && !b.Led? && !b.Flash? {
      PureHeld(s, b, vals);
    }
  }

  lemma DispatchHeld(s: Scope, b: Builtin, vals: seq<Value>, log: seq<Event>)
    requires Closed(s) && AllHeld(s, vals)
    ensures Sources(s, Sync.Dispatch(s.h, b, vals, log).out)
  {
    hide Held, Closed, ApplyBuiltin, Fetch.FirstHit, Fetch.JsonProbe;
    if b.FetchJson? {
      if |vals| == 2 && vals[0].Str? && vals[1].Str? && s.h.net.Some? {
        HitIsScalar(s.h.std, vals[1].s, s.h.net.value.stream(log, vals[0].s).bufs);
      }
    } else if !b.FetchUrl? {
      EffectHeld(s, b, vals, log);
    }
  }

  // ---- evaluation ----------------------------------------------------------------------------

  ghost predicate Bounded(s: Scope, m: Sync.Machine, r: Sync.Run<Value>) {
    r.m.mem <= m.mem && (r.out.Ok? ==> Held(s, r.out.value))
  }

  ghost predicate Ready(s: Scope, locals: seq<Value>, m: Sync.Machine) {
    Sound(s) && AllHeld(s, locals) && m.mem <= s.limit
  }

  /** Charging a value is what bounds it. */
  lemma ChargedHeld(s: Scope, r: Sync.Run<Value>)
    requires Sound(s) && Sources(s, r.out) && r.m.mem <= s.limit
    ensures Bounded(s, r.m, Sync.Charged(s.h, r))
  {
  }

  lemma {:induction false} EvalHeld(s: Scope, locals: seq<Value>, e: Expr, m: Sync.Machine)
    requires Ready(s, locals, m) && ConstsGiven(s, e)
    ensures Bounded(s, m, Sync.Eval(s.h, locals, e, m))
    decreases e, 1
  {
    hide Sync.EvalNode, Held, ConstsGiven, Sound;
    var t := Sync.Tick(s.h, m);
    if t.out.Ok? { NodeHeld(s, locals, e, t.m); }
  }

  lemma {:induction false} NodeHeld(s: Scope, locals: seq<Value>, e: Expr, m: Sync.Machine)
    requires Ready(s, locals, m) && ConstsGiven(s, e)
    ensures Bounded(s, m, Sync.EvalNode(s.h, locals, e, m))
    decreases e, 0
  {
    hide Sync.Eval, Sync.EvalAll, Sync.Charged, Sync.Dispatch, NumBinop, Compare, IndexInto, ApplyUnary, AsBool, Held;
    match e
    case Const(v) => GivenHeld(s, v);
    case Local(_) =>
    case Var(name) => if s.h.env(name).Some? { GivenHeld(s, s.h.env(name).value); }
    case Unary(op, a) =>
      EvalHeld(s, locals, a, m);
      UnaryScalar(s, op);
    case Cmp(op, a, b) =>
      BothHeld(s, locals, a, b, m, e);
      BoolHeld(s);
    case Logic(op, a, b) =>
      BothHeld(s, locals, a, b, m, e);
      BoolHeld(s);
    case Index(a, b) =>
      BothHeld(s, locals, a, b, m, e);
      var x := Sync.Eval(s.h, locals, a, m);
      if x.out.Ok? {
        var y := Sync.Eval(s.h, locals, b, x.m);
        if y.out.Ok? { IndexHeld(s, x.out.value, y.out.value); }
      }
    case If(c, t, f) =>
      BothHeld(s, locals, c, t, m, e);
      BothHeld(s, locals, c, f, m, e);
    case Bin(op, a, b) =>
      BothHeld(s, locals, a, b, m, e);
      var x := Sync.Eval(s.h, locals, a, m);
      if x.out.Ok? {
        var y := Sync.Eval(s.h, locals, b, x.m);
        if y.out.Ok? {
          BinopScalar(s, op, x.out.value, y.out.value);
          ChargedHeld(s, Sync.Run(NumBinop(s.h.std, op, x.out.value, y.out.value), y.m));
        }
      }
    case Call(b, args) =>
      AllArgsHeld(s, locals, args, 0, [], m);
      var vs := Sync.EvalAll(s.h, locals, args, 0, [], m);
      if vs.out.Ok? {
        DispatchHeld(s, b, vs.out.value, vs.m.log);
        ChargedHeld(s, Sync.CallBuiltin(s.h, b, vs.out.value, vs.m));
      }
    case ListOf(args) =>
      AllArgsHeld(s, locals, args, 0, [], m);
      var vs := Sync.EvalAll(s.h, locals, args, 0, [], m);
      if vs.out.Ok? { ChargedHeld(s, Sync.Run(Ok(List(vs.out.value)), vs.m)); }
  }

  lemma GivenHeld(s: Scope, v: Value)
    requires s.given(v)
    ensures Held(s, v)
  {
  }

  lemma BoolHeld(s: Scope)
    ensures forall b: bool :: Held(s, Bool(b))
  {
    forall b: bool ensures Held(s, Bool(b)) { ScalarHeld(s, Bool(b)); }
  }

  lemma UnaryScalar(s: Scope, op: UnOp)
    ensures forall v: Value :: var r := ApplyUnary(s.h.std, op, v); r.Ok? ==> Held(s, r.value)
  {
  }

  lemma BinopScalar(s: Scope, op: BinOp, x: Value, y: Value)
    ensures Sources(s, NumBinop(s.h.std, op, x, y))
  {
    hide ToText, AsF64, Wrap64, TruncDiv, TruncRem;
  }

  lemma IndexHeld(s: Scope, l: Value, i: Value)
    requires Closed(s) && Held(s, l)
    ensures var r := IndexInto(l, i); r.Ok? ==> Held(s, r.value)
  {
    hide Held, Closed;
    if l.List? { ItemsHeld(s, l); }
  }

  lemma {:induction false} BothHeld(s: Scope, locals: seq<Value>, a: Expr, b: Expr, m: Sync.Machine, whole: Expr)
    requires Ready(s, locals, m) && ConstsGiven(s, a) && ConstsGiven(s, b) && a < whole && b < whole
    ensures var x := Sync.Eval(s.h, locals, a, m);
            Bounded(s, m, x) && Bounded(s, x.m, Sync.Eval(s.h, locals, b, x.m))
    decreases whole, -1
  {
    hide Sync.Eval, Held, ConstsGiven, Sound;
    EvalHeld(s, locals, a, m);
    EvalHeld(s, locals, b, Sync.Eval(s.h, locals, a, m).m);
  }

  lemma {:induction false} AllArgsHeld(s: Scope, locals: seq<Value>, args: seq<Expr>, i: nat, done: seq<Value>, m: Sync.Machine)
    requires Ready(s, locals, m) && AllHeld(s, done)
    requires forall k | 0 <= k < |args| :: ConstsGiven(s, args[k])
    ensures var r := Sync.EvalAll(s.h, locals, args, i, done, m);
            r.m.mem <= m.mem && (r.out.Ok? ==> AllHeld(s, r.out.value))
    decreases args, if i <= |args| then |args| - i else 0
  {
    hide Sync.Eval, Held, ConstsGiven, Sound;
    if i < |args| {
      EvalHeld(s, locals, args[i], m);
      var x := Sync.Eval(s.h, locals, args[i], m);
      if x.out.Ok? { AllArgsHeld(s, locals, args, i + 1, done + [x.out.value], x.m); }
    }
  }

  lemma {:induction false} RunHeld(s: Scope, p: Program, i: nat, locals: seq<Value>, m: Sync.Machine)
    requires Ready(s, locals, m) && ConstsGiven(s, p.ret)
    requires forall k | 0 <= k < |p.body| :: ConstsGiven(s, p.body[k].expr)
    ensures Bounded(s, m, Sync.RunFrom(s.h, p, i, locals, m))
    decreases if i <= |p.body| then |p.body| - i else 0
  {
    hide Sync.Eval, Held, ConstsGiven, Sound;
    if i >= |p.body| {
      EvalHeld(s, locals, p.ret, m);
    } else {
      EvalHeld(s, locals, p.body[i].expr, m);
      var x := Sync.Eval(s.h, locals, p.body[i].expr, m);
      if x.out.Ok? && p.body[i].slot < |locals| {
        RunHeld(s, p, i + 1, locals[p.body[i].slot := x.out.value], x.m);
      }
    }
  }

  /** `x` is `v` or stands somewhere inside it. */
  ghost predicate Nested(x: Value, v: Value)
    decreases v
  {
    x == v || (v.List? && exists i | 0 <= i < |v.items| :: Nested(x, v.items[i]))
  }

  lemma {:induction false} NestedHeld(s: Scope, x: Value, v: Value)
    requires Closed(s) && Held(s, v) && Nested(x, v)
    ensures s.given(x) || Footprint(s.h.valueSize, x) <= s.limit
    decreases v
  {
    if x != v {
      var i :| 0 <= i < |v.items| && Nested(x, v.items[i]);
      ItemHeld(s, v, i);
      NestedHeld(s, x, v.items[i]);
    }
  }

  /** Everything nested in the result of a run was given or fits the memory budget. */
  lemma ResultsFit(s: Scope, p: Program, maxSteps: nat, x: Value)
    requires Sound(s) && ConstsGiven(s, p.ret)
    requires forall k | 0 <= k < |p.body| :: ConstsGiven(s, p.body[k].expr)
    requires var r := Sync.RunWith(s.h, p, maxSteps, s.limit); r.out.Ok? && Nested(x, r.out.value)
    ensures s.given(x) || Footprint(s.h.valueSize, x) <= s.limit
  {
    hide Sync.RunFrom, ConstsGiven, Held, Nested, Closed, EnvGiven;
    var zeros := Sync.Zeros(p.nLocals);
    forall i | 0 <= i < |zeros| ensures Held(s, zeros[i]) { ScalarHeld(s, zeros[i]); }
    RunHeld(s, p, 0, zeros, Sync.Machine(maxSteps, s.limit, 0, []));
    NestedHeld(s, x, Sync.RunWith(s.h, p, maxSteps, s.limit).out.value);
  }
}
