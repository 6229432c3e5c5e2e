/**
 The cooperative evaluator: the same language, evaluated under a shared context whose cells it updates.
 It has no memory budget and no LED capability. An awaited network call is one call on the host.
 */
module Async {
  import opened Values
  import opened Ir
  import opened Ops
  import Sync

  datatype Context = Context(budget: nat, since: nat, log: seq<Event>)

  datatype Task<+T> = Task(out: Result<T>, c: Context)

  // ---- what one evaluation computes ----------------------------------------------------------

  function Tick(h: Host, c: Context): Task<bool> {
    if c.budget == 0 then Task(Err(Budget), c)
    else
      var spent := c.(budget := c.budget - 1);
      if h.deadline.None? then Task(Ok(true), spent)
      else if c.since + 1 >= DEADLINE_CHECK_INTERVAL then
        var read := spent.(since := 0, log := c.log + [ClockRead]);
        Task(if h.deadline.value(c.log, spent.budget) then Err(Timeout) else Ok(true), read)
      else Task(Ok(true), spent.(since := c.since + 1))
  }

  function Eval(h: Host, locals: seq<Value>, e: Expr, c: Context): Task<Value>
    decreases e, 1
  {
    var t := Tick(h, c);
    if t.out.Err? then Task(Err(t.out.error), t.c) else EvalNode(h, locals, e, t.c)
  }

  function EvalNode(h: Host, locals: seq<Value>, e: Expr, c: Context): Task<Value>
    decreases e, 0
  {
    match e
    case Const(v) => Task(Ok(v), c)
    case Local(i) => Task(if i < |locals| then Ok(locals[i]) else Err(Panic), c)
    case Var(name) => Task(Sync.LookUp(h, name), c)
    case Bin(op, a, b) =>
      var x := Eval(h, locals, a, c);
      if x.out.Err? then x
      else
        var y := Eval(h, locals, b, x.c);
        if y.out.Err? then y else Task(NumBinop(h.std, op, x.out.value, y.out.value), y.c)
    case Cmp(op, a, b) =>
      var x := Eval(h, locals, a, c);
      if x.out.Err? then x
      else
        var y := Eval(h, locals, b, x.c);
        if y.out.Err? then y else Task(Sync.AsValue(Compare(h.std, op, x.out.value, y.out.value)), y.c)
    case Logic(op, a, b) =>
      var x := Eval(h, locals, a, c);
      if x.out.Err? then x
      else
        var l := AsBool(h.std, x.out.value);
        if op.And? && !l then Task(Ok(Bool(false)), x.c)
        else if op.Or? && l then Task(Ok(Bool(true)), x.c)
        else
          var y := Eval(h, locals, b, x.c);
          if y.out.Err? then y else Task(Ok(Bool(AsBool(h.std, y.out.value))), y.c)
    case Unary(op, a) =>
      var x := Eval(h, locals, a, c);
      if x.out.Err? then x else Task(ApplyUnary(h.std, op, x.out.value), x.c)
    case Index(a, b) =>
      var x := Eval(h, locals, a, c);
      if x.out.Err? then x
      else
        var y := Eval(h, locals, b, x.c);
        if y.out.Err? then y else Task(IndexInto(x.out.value, y.out.value), y.c)
    case If(cond, t, f) =>
      var x := Eval(h, locals, cond, c);
      if x.out.Err? then x
      else if AsBool(h.std, x.out.value) then Eval(h, locals, t, x.c)
      else Eval(h, locals, f, x.c)
    case Call(b, args) =>
      var vs := EvalAll(h, locals, args, 0, [], c);
      if vs.out.Err? then Task(Err(vs.out.error), vs.c) else CallBuiltin(h, b, vs.out.value, vs.c)
    case ListOf(args) =>
      var vs := EvalAll(h, locals, args, 0, [], c);
      if vs.out.Err? then Task(Err(vs.out.error), vs.c) else Task(Ok(List(vs.out.value)), vs.c)
  }

  function EvalAll(h: Host, locals: seq<Value>, args: seq<Expr>, i: nat, done: seq<Value>, c: Context): Task<seq<Value>>
    decreases args, if i <= |args| then |args| - i else 0
  {
    if i >= |args| then Task(Ok(done), c)
    else
      var x := Eval(h, locals, args[i], c);
      if x.out.Err? then Task(Err(x.out.error), x.c)
      else EvalAll(h, locals, args, i + 1, done + [x.out.value], x.c)
  }

  function Dispatch(h: Host, b: Builtin, vals: seq<Value>, log: seq<Event>): Effect {
    if b.FetchUrl? then Sync.ApplyFetch(h, vals, log)
    else if b.FetchJson? then Sync.ApplyFetchJson(h, vals, log)
    else ApplyBuiltin(h.std, b, vals, h.display, None, log)
  }

  function CallBuiltin(h: Host, b: Builtin, vals: seq<Value>, c: Context): Task<Value> {
    var e := Dispatch(h, b, vals, c.log);
    Task(e.out, c.(log := e.log))
  }

  function RunFrom(h: Host, p: Program, i: nat, locals: seq<Value>, c: Context): Task<Value>
    decreases if i <= |p.body| then |p.body| - i else 0
  {
    if i >= |p.body| then Eval(h, locals, p.ret, c)
    else
      var x := Eval(h, locals, p.body[i].expr, c);
      if x.out.Err? then x
      else if p.body[i].slot >= |locals| then Task(Err(Panic), x.c)
      else RunFrom(h, p, i + 1, locals[p.body[i].slot := x.out.value], x.c)
  }

  function RunAsync(h: Host, p: Program, maxSteps: nat): Task<Value> {
    RunFrom(h, p, 0, Sync.Zeros(p.nLocals), Context(maxSteps, 0, []))
  }

  // ---- the evaluator as it runs --------------------------------------------------------------

  class AsyncCtx {
    const host: Host
    var locals: seq<Value>
    var budget: nat
    var sinceCheck: nat
    var log: seq<Event>

    constructor (host: Host, nLocals: nat, maxSteps: nat)
      ensures this.host == host && locals == Sync.Zeros(nLocals)
      ensures Cells() == Context(maxSteps, 0, [])
    {
      this.host := host;
      locals := Sync.Zeros(nLocals);
      budget, sinceCheck, log := maxSteps, 0, [];
    }

    ghost function Cells(): Context
      reads this
    {
      Context(budget, sinceCheck, log)
    }

    method Step() returns (r: Result<bool>)
      modifies this`budget, this`sinceCheck, this`log
      ensures Task(r, Cells()) == Tick(host, old(Cells()))
    {
      if budget == 0 {
        return Err(Budget);
      }
      budget := budget - 1;
      if host.deadline.Some? {
        var sc := sinceCheck + 1;
        if sc >= DEADLINE_CHECK_INTERVAL {
          sinceCheck := 0;
          var late := host.deadline.value(log, budget);
          log := log + [ClockRead];
          if late {
            return Err(Timeout);
          }
        } else {
          sinceCheck := sc;
        }
      }
      return Ok(true);
    }

    method Evaluate(e: Expr) returns (r: Result<Value>)
      modifies this`budget, this`sinceCheck, this`log
      ensures Task(r, Cells()) == Eval(host, locals, e, old(Cells()))
      decreases e, 2
    {
      hide Tick, EvalNode;
      var t := Step();
      if t.Err? {
        return Err(t.error);
      }
      r := EvaluateNode(e);
    }

    method EvaluateNode(e: Expr) returns (r: Result<Value>)
      modifies this`budget, this`sinceCheck, this`log
      ensures Task(r, Cells()) == EvalNode(host, locals, e, old(Cells()))
      decreases e, 1
    {
      hide Eval, EvalAll, CallBuiltin, Sync.LookUp, Sync.AsValue;
      match e
      case Const(v) => r := Ok(v);
      case Local(i) => r := if i < |locals| then Ok(locals[i]) else Err(Panic);
      case Var(name) => r := Sync.LookUp(host, name);
      case Bin(op, a, b) =>
        var x, y := EvaluateBoth(a, b, e);
        if x.Err? { return x; }
        if y.Err? { return y; }
        r := NumBinop(host.std, op, x.value, y.value);
      case Cmp(op, a, b) =>
        var x, y := EvaluateBoth(a, b, e);
        if x.Err? { return x; }
        if y.Err? { return y; }
        r := Sync.AsValue(Compare(host.std, op, x.value, y.value));
      case Logic(op, a, b) =>
        var x := Evaluate(a);
        if x.Err? { return x; }
        var l := AsBool(host.std, x.value);
        if op.And? && !l { return Ok(Bool(false)); }
        if op.Or? && l { return Ok(Bool(true)); }
        var y := Evaluate(b);
        if y.Err? { return y; }
        r := Ok(Bool(AsBool(host.std, y.value)));
      case Unary(op, a) =>
        var x := Evaluate(a);
        if x.Err? { return x; }
        r := ApplyUnary(host.std, op, x.value);
      case Index(a, b) =>
        var x, y := EvaluateBoth(a, b, e);
        if x.Err? { return x; }
        if y.Err? { return y; }
        r := IndexInto(x.value, y.value);
      case If(c, t, f) =>
        var x := Evaluate(c);
        if x.Err? { return x; }
        if AsBool(host.std, x.value) { r := Evaluate(t); } else { r := Evaluate(f); }
      case Call(b, args) =>
        var vs := EvaluateAll(args);
        if vs.Err? { return Err(vs.error); }
        r := CallWith(b, vs.value);
      case ListOf(args) =>
        var vs := EvaluateAll(args);
        if vs.Err? { return Err(vs.error); }
        r := Ok(List(vs.value));
    }

    method EvaluateBoth(a: Expr, b: Expr, ghost whole: Expr) returns (x: Result<Value>, y: Result<Value>)
      requires a < whole && b < whole
      modifies this`budget, this`sinceCheck, this`log
      ensures var first := Eval(host, locals, a, old(Cells()));
              x == first.out &&
              if x.Err? then Cells() == first.c else Task(y, Cells()) == Eval(host, locals, b, first.c)
      decreases whole, 0
    {
      hide Eval;
      x := Evaluate(a);
      y := x;
      if x.Ok? {
        y := Evaluate(b);
      }
    }

    method EvaluateAll(args: seq<Expr>) returns (r: Result<seq<Value>>)
      modifies this`budget, this`sinceCheck, this`log
      ensures Task(r, Cells()) == EvalAll(host, locals, args, 0, [], old(Cells()))
      decreases args, 0
    {
      hide Eval;
      var vals: seq<Value> := [];
      var i := 0;
      while i < |args|
        invariant 0 <= i <= |args|
        invariant EvalAll(host, locals, args, 0, [], old(Cells())) == EvalAll(host, locals, args, i, vals, Cells())
      {
        var v := Evaluate(args[i]);
        if v.Err? {
          return Err(v.error);
        }
        vals := vals + [v.value];
        i := i + 1;
      }
      r := Ok(vals);
    }

    method CallWith(b: Builtin, vals: seq<Value>) returns (r: Result<Value>)
      modifies this`log
      ensures Task(r, Cells()) == CallBuiltin(host, b, vals, old(Cells()))
    {
      hide Dispatch;
      var e := Dispatch(host, b, vals, log);
      log := e.log;
      r := e.out;
    }

    method RunProgram(p: Program) returns (r: Result<Value>)
      modifies this
      ensures Task(r, Cells()) == RunFrom(host, p, 0, old(locals), old(Cells()))
    {
      hide Eval;
      var i := 0;
      while i < |p.body|
        invariant 0 <= i <= |p.body|
        invariant RunFrom(host, p, 0, old(locals), old(Cells())) == RunFrom(host, p, i, locals, Cells())
      {
        var v := Evaluate(p.body[i].expr);
        if v.Err? {
          return v;
        }
        if p.body[i].slot >= |locals| {
          return Err(Panic);
        }
        locals := locals[p.body[i].slot := v.value];
        i := i + 1;
      }
      r := Evaluate(p.ret);
    }
  }

  method RunProgramAsync(h: Host, p: Program, maxSteps: nat) returns (r: Result<Value>)
    ensures r == RunAsync(h, p, maxSteps).out
  {
    hide RunFrom;
    var c := new AsyncCtx(h, p.nLocals, maxSteps);
    r := c.RunProgram(p);
  }
}
