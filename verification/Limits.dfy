/**
 What a program means without limits, what that costs, and how the limits act on it: a run within its
 limits is the unlimited run, and a run beyond them reports a limit. No limit ever changes an answer.
 */
module Limits {
  import opened Values
  import opened Ir
  import opened Ops
  import Sync

  /** The outcome of an unlimited run, the nodes it visits and the bytes it builds. */
  datatype Cost<+T> = Cost(out: Result<T>, steps: nat, bytes: nat, log: seq<Event>)

  /** The cost of `c` and `n` more steps. */
  function After<T>(n: nat, bytes: nat, c: Cost<T>): Cost<T> {
    c.(steps := c.steps + n, bytes := c.bytes + bytes)
  }

  function Failed<T>(c: Cost<Value>): Cost<T>
    requires c.out.Err?
  {
    Cost(Err(c.out.error), c.steps, c.bytes, c.log)
  }

  /** A fresh value also costs its bytes. */
  function Built(h: Host, c: Cost<Value>): Cost<Value> {
    if c.out.Err? then c else c.(bytes := c.bytes + Charge(h.valueSize, c.out.value))
  }

  /** Every node visited is one step. */
  function Ideal(h: Host, locals: seq<Value>, e: Expr, log: seq<Event>): Cost<Value>
    decreases e, 1
  {
    After(1, 0, IdealNode(h, locals, e, log))
  }

  function IdealNode(h: Host, locals: seq<Value>, e: Expr, log: seq<Event>): Cost<Value>
    decreases e, 0
  {
    match e
    case Const(v) => Cost(Ok(v), 0, 0, log)
    case Local(i) => Cost(if i < |locals| then Ok(locals[i]) else Err(Panic), 0, 0, log)
    case Var(name) => Cost(Sync.LookUp(h, name), 0, 0, log)
    case Bin(op, a, b) =>
      var x := Ideal(h, locals, a, log);
      if x.out.Err? then x
      else
        var y := Ideal(h, locals, b, x.log);
        After(x.steps, x.bytes, if y.out.Err? then y
                                else Built(h, y.(out := NumBinop(h.std, op, x.out.value, y.out.value))))
    case Cmp(op, a, b) =>
      var x := Ideal(h, locals, a, log);
      if x.out.Err? then x
      else
        var y := Ideal(h, locals, b, x.log);
        After(x.steps, x.bytes, if y.out.Err? then y
                                else y.(out := Sync.AsValue(Compare(h.std, op, x.out.value, y.out.value))))
    case Logic(op, a, b) =>
      var x := Ideal(h, locals, a, log);
      if x.out.Err? then x
      else if AsBool(h.std, x.out.value) == op.Or? then x.(out := Ok(Bool(op.Or?)))
      else
        var y := Ideal(h, locals, b, x.log);
        After(x.steps, x.bytes, if y.out.Err? then y else y.(out := Ok(Bool(AsBool(h.std, y.out.value)))))
    case Unary(op, a) =>
      var x := Ideal(h, locals, a, log);
      if x.out.Err? then x else x.(out := ApplyUnary(h.std, op, x.out.value))
    case Index(a, b) =>
      var x := Ideal(h, locals, a, log);
      if x.out.Err? then x
      else
        var y := Ideal(h, locals, b, x.log);
        After(x.steps, x.bytes, if y.out.Err? then y else y.(out := IndexInto(x.out.value, y.out.value)))
    case If(c, t, f) =>
      var x := Ideal(h, locals, c, log);
      if x.out.Err? then x
      else After(x.steps, x.bytes, Ideal(h, locals, if AsBool(h.std, x.out.value) then t else f, x.log))
    case Call(b, args) =>
      var vs := IdealAll(h, locals, args, 0, [], log);
      if vs.out.Err? then Cost(Err(vs.out.error), vs.steps, vs.bytes, vs.log)
      else
        var r := Sync.Dispatch(h, b, vs.out.value, vs.log);
        Built(h, Cost(r.out, vs.steps, vs.bytes, r.log))
    case ListOf(args) =>
      var vs := IdealAll(h, locals, args, 0, [], log);
      if vs.out.Err? then Cost(Err(vs.out.error), vs.steps, vs.bytes, vs.log)
      else Built(h, Cost(Ok(List(vs.out.value)), vs.steps, vs.bytes, vs.log))
  }

  function IdealAll(h: Host, locals: seq<Value>, args: seq<Expr>, i: nat, done: seq<Value>, log: seq<Event>): Cost<seq<Value>>
    decreases args, if i <= |args| then |args| - i else 0
  {
    if i >= |args| then Cost(Ok(done), 0, 0, log)
    else
      var x := Ideal(h, locals, args[i], log);
      if x.out.Err? then Failed(x)
      else After(x.steps, x.bytes, IdealAll(h, locals, args, i + 1, done + [x.out.value], x.log))
  }

  function IdealFrom(h: Host, p: Program, i: nat, locals: seq<Value>, log: seq<Event>): Cost<Value>
    decreases if i <= |p.body| then |p.body| - i else 0
  {
    if i >= |p.body| then Ideal(h, locals, p.ret, log)
    else
      var x := Ideal(h, locals, p.body[i].expr, log);
      if x.out.Err? then x
      else if p.body[i].slot >= |locals| then x.(out := Err(Panic))
      else After(x.steps, x.bytes, IdealFrom(h, p, i + 1, locals[p.body[i].slot := x.out.value], x.log))
  }

  /** What a program means, and what it costs. */
  function Meaning(h: Host, p: Program): Cost<Value> {
    IdealFrom(h, p, 0, Sync.Zeros(p.nLocals), [])
  }

  // ---- limits against meaning ----------------------------------------------------------------

  predicate IsLimit<T>(out: Result<T>) { out == Err(Budget) || out == Err(MemoryLimit) }

  /** Within the limits the run is the unlimited one and pays its exact cost; beyond them it stops. */
  ghost predicate Exact<T>(m: Sync.Machine, r: Sync.Run<T>, c: Cost<T>) {
    if c.steps <= m.budget && c.bytes <= m.mem then
      r == Sync.Run(c.out, Sync.Machine(m.budget - c.steps, m.mem - c.bytes, m.since, c.log))
    else IsLimit(r.out)
  }

  lemma {:induction false} EvalExact(h: Host, locals: seq<Value>, e: Expr, m: Sync.Machine)
    requires h.deadline.None?
    ensures Exact(m, Sync.Eval(h, locals, e, m), Ideal(h, locals, e, m.log))
    decreases e, 1
  {
    hide Sync.EvalNode, IdealNode;
    if m.budget > 0 {
      NodeExact(h, locals, e, m.(budget := m.budget - 1));
    }
  }

  lemma ChargeExact(h: Host, m: Sync.Machine, r: Sync.Run<Value>, c: Cost<Value>)
    requires Exact(m, r, c)
    ensures Exact(m, Sync.Charged(h, r), Built(h, c))
  {
    hide Charge;
  }

  /** `first` then `rest`, each exact, are exact together. */
  lemma SequenceExact<T>(m: Sync.Machine, x: Sync.Run<Value>, cx: Cost<Value>, r: Sync.Run<T>, c: Cost<T>)
    requires Exact(m, x, cx) && cx.out.Ok?
    requires x.out.Ok? ==> Exact(x.m, r, c)
    requires x.out.Err? ==> r.out == Err(x.out.error)
    ensures Exact(m, r, After(cx.steps, cx.bytes, c))
  {
  }

  lemma {:induction false} NodeExact(h: Host, locals: seq<Value>, e: Expr, m: Sync.Machine)
    requires h.deadline.None?
    ensures Exact(m, Sync.EvalNode(h, locals, e, m), IdealNode(h, locals, e, m.log))
    decreases e, 0
  {
    hide Sync.Eval, Ideal, Sync.EvalAll, IdealAll, Sync.Charged, Built, Charge;
    hide NumBinop, Compare, IndexInto, ApplyUnary, AsBool, Sync.Dispatch;
    match e
    case Const(_) =>
    case Local(_) =>
    case Var(_) =>
    case Unary(_, a) => EvalExact(h, locals, a, m);
    case Cmp(_, a, b) => BothExact(h, locals, a, b, m, e);
    case Logic(_, a, b) => BothExact(h, locals, a, b, m, e);
    case Index(a, b) => BothExact(h, locals, a, b, m, e);
    case If(x, t, f) =>
      BothExact(h, locals, x, t, m, e);
      BothExact(h, locals, x, f, m, e);
    case Bin(op, a, b) => BinExact(h, locals, e, m);
    case Call(b, args) => CallExact(h, locals, e, m);
    case ListOf(args) =>
      AllExact(h, locals, args, 0, [], m);
      var vs, cs := Sync.EvalAll(h, locals, args, 0, [], m), IdealAll(h, locals, args, 0, [], m.log);
      if cs.out.Ok? {
        var r, c := Sync.Run(Ok(List(cs.out.value)), vs.m), Cost(Ok(List(cs.out.value)), cs.steps, cs.bytes, cs.log);
        if vs.out.Ok? { ChargeExact(h, m, r, c); } else { BuiltCost(h, c); }
      }
  }

  lemma BuiltCost(h: Host, c: Cost<Value>)
    ensures Built(h, c).steps == c.steps && Built(h, c).bytes >= c.bytes
  {
  }

  lemma {:induction false} BinExact(h: Host, locals: seq<Value>, e: Expr, m: Sync.Machine)
    requires h.deadline.None? && e.Bin?
    ensures Exact(m, Sync.EvalNode(h, locals, e, m), IdealNode(h, locals, e, m.log))
    decreases e, -1
  {
    hide Sync.Eval, Ideal, Sync.Charged, Built, NumBinop;
    var x, cx := Sync.Eval(h, locals, e.l, m), Ideal(h, locals, e.l, m.log);
    EvalExact(h, locals, e.l, m);
    if cx.out.Ok? {
      var cy := Ideal(h, locals, e.r, cx.log);
      var cv := cy.(out := if cy.out.Err? then cy.out else NumBinop(h.std, e.bop, cx.out.value, cy.out.value));
      var last := if cy.out.Err? then cy else Built(h, cv);
      if x.out.Err? {
        BuiltCost(h, cv);
      } else if x == Sync.Run(cx.out, Sync.Machine(m.budget - cx.steps, m.mem - cx.bytes, m.since, cx.log)) {
        EvalExact(h, locals, e.r, x.m);
        var y := Sync.Eval(h, locals, e.r, x.m);
        if y.out.Ok? && cy.out.Ok? {
          var v := Sync.Run(NumBinop(h.std, e.bop, x.out.value, y.out.value), y.m);
          ChargeExact(h, x.m, v, cv);
          SequenceExact(m, x, cx, Sync.Charged(h, v), last);
        } else {
          BuiltCost(h, cv);
          SequenceExact(m, x, cx, y, last);
        }
      }
    }
  }

  lemma {:induction false} CallExact(h: Host, locals: seq<Value>, e: Expr, m: Sync.Machine)
    requires h.deadline.None? && e.Call?
    ensures Exact(m, Sync.EvalNode(h, locals, e, m), IdealNode(h, locals, e, m.log))
    decreases e, -1
  {
    hide Sync.EvalAll, IdealAll, Sync.Charged, Built, Sync.Dispatch;
    AllExact(h, locals, e.args, 0, [], m);
    var vs, cs := Sync.EvalAll(h, locals, e.args, 0, [], m), IdealAll(h, locals, e.args, 0, [], m.log);
    if cs.out.Ok? {
      var d := Sync.Dispatch(h, e.b, cs.out.value, cs.log);
      var c := Cost(d.out, cs.steps, cs.bytes, d.log);
      if vs.out.Ok? {
        ChargeExact(h, m, Sync.CallBuiltin(h, e.b, vs.out.value, vs.m), c);
      } else {
        BuiltCost(h, c);
      }
    }
  }

  lemma {:induction false} BothExact(h: Host, locals: seq<Value>, a: Expr, b: Expr, m: Sync.Machine, whole: Expr)
    requires h.deadline.None? && a < whole && b < whole
    ensures Exact(m, Sync.Eval(h, locals, a, m), Ideal(h, locals, a, m.log))
    ensures var x := Sync.Eval(h, locals, a, m);
            x.out.Ok? ==> Exact(x.m, Sync.Eval(h, locals, b, x.m), Ideal(h, locals, b, x.m.log))
    decreases whole, -1
  {
    hide Sync.Eval, Ideal;
    var x := Sync.Eval(h, locals, a, m);
    EvalExact(h, locals, a, m);
    if x.out.Ok? { EvalExact(h, locals, b, x.m); }
  }

  lemma {:induction false} AllExact(h: Host, locals: seq<Value>, args: seq<Expr>, i: nat, done: seq<Value>, m: Sync.Machine)
    requires h.deadline.None?
    ensures Exact(m, Sync.EvalAll(h, locals, args, i, done, m), IdealAll(h, locals, args, i, done, m.log))
    decreases args, if i <= |args| then |args| - i else 0
  {
    hide Sync.Eval, Ideal;
    if i < |args| {
      EvalExact(h, locals, args[i], m);
      var x := Sync.Eval(h, locals, args[i], m);
      if x.out.Ok? { AllExact(h, locals, args, i + 1, done + [x.out.value], x.m); }
    }
  }

  lemma {:induction false} RunExact(h: Host, p: Program, i: nat, locals: seq<Value>, m: Sync.Machine)
    requires h.deadline.None?
    ensures Exact(m, Sync.RunFrom(h, p, i, locals, m), IdealFrom(h, p, i, locals, m.log))
    decreases if i <= |p.body| then |p.body| - i else 0
  {
    hide Sync.Eval, Ideal;
    if i >= |p.body| {
      EvalExact(h, locals, p.ret, m);
    } else {
      EvalExact(h, locals, p.body[i].expr, m);
      var x := Sync.Eval(h, locals, p.body[i].expr, m);
      if x.out.Ok? && p.body[i].slot < |locals| {
        RunExact(h, p, i + 1, locals[p.body[i].slot := x.out.value], x.m);
      }
    }
  }

  /** A run gives its meaning exactly when the limits cover its cost, and then spends exactly that. */
  lemma LimitsAreExact(h: Host, p: Program, maxSteps: nat, maxBytes: nat)
    requires h.deadline.None?
    ensures var c, r := Meaning(h, p), Sync.RunWith(h, p, maxSteps, maxBytes);
            if c.steps <= maxSteps && c.bytes <= maxBytes then
              r.out == c.out && r.m.budget == maxSteps - c.steps && r.m.mem == maxBytes - c.bytes && r.m.log == c.log
            else IsLimit(r.out)
  {
    hide Sync.RunFrom, IdealFrom;
    RunExact(h, p, 0, Sync.Zeros(p.nLocals), Sync.Machine(maxSteps, maxBytes, 0, []));
  }

  /** Raising the limits of a run that did not hit them changes neither the answer nor what is spent. */
  lemma LimitsNeverChangeAnswers(h: Host, p: Program, maxSteps: nat, maxBytes: nat, moreSteps: nat, moreBytes: nat)
    requires h.deadline.None? && maxSteps <= moreSteps && maxBytes <= moreBytes
    requires !IsLimit(Sync.RunWith(h, p, maxSteps, maxBytes).out)
    ensures var r, s := Sync.RunWith(h, p, maxSteps, maxBytes), Sync.RunWith(h, p, moreSteps, moreBytes);
            s.out == r.out && s.m.log == r.m.log &&
            moreSteps - s.m.budget == maxSteps - r.m.budget &&
            moreBytes - s.m.mem == maxBytes - r.m.mem
  {
    hide Sync.RunWith, Meaning;
    LimitsAreExact(h, p, maxSteps, maxBytes);
    LimitsAreExact(h, p, moreSteps, moreBytes);
  }
}
