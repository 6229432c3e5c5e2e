/**
 The budgeted evaluator. `Frame` is the evaluator as it runs, updating its counters in place; the
 functions say what one evaluation computes from the counters it starts with.
 */
module Sync {
  import opened Values
  import opened Ir
  import opened Ops
  import opened Fetch

  /** The counters of a frame, and the calls made on the host so far. */
  datatype Machine = Machine(budget: nat, mem: nat, since: nat, log: seq<Event>)

  datatype Run<+T> = Run(out: Result<T>, m: Machine)

  // ---- what one evaluation computes ----------------------------------------------------------

  /** One step: spend budget, and read the clock every 256th time. */
  function Tick(h: Host, m: Machine): (r: Run<bool>) {
    if m.budget == 0 then Run(Err(Budget), m)
    else
      var spent := m.(budget := m.budget - 1);
      if h.deadline.None? then Run(Ok(true), spent)
      else if m.since + 1 < DEADLINE_CHECK_INTERVAL then Run(Ok(true), spent.(since := m.since + 1))
      else
        var read := spent.(since := 0, log := m.log + [ClockRead]);
        if h.deadline.value(m.log, spent.budget) then Run(Err(Timeout), read) else Run(Ok(true), read)
  }

  /** Deduct the cost of a fresh value, or fail. */
  function Charged(h: Host, r: Run<Value>): Run<Value> {
    if r.out.Err? then r
    else
      var cost := Charge(h.valueSize, r.out.value);
      if r.m.mem < cost then Run(Err(MemoryLimit), r.m) else r.(m := r.m.(mem := r.m.mem - cost))
  }

  function Eval(h: Host, locals: seq<Value>, e: Expr, m: Machine): Run<Value>
    decreases e, 1
  {
    var t := Tick(h, m);
    if t.out.Err? then Run(Err(t.out.error), t.m) else EvalNode(h, locals, e, t.m)
  }

  function EvalNode(h: Host, locals: seq<Value>, e: Expr, m: Machine): Run<Value>
    decreases e, 0
  {
    match e
    case Const(v) => Run(Ok(v), m)
    case Local(i) => Run(if i < |locals| then Ok(locals[i]) else Err(Panic), m)
    case Var(name) => Run(LookUp(h, name), m)
    case Bin(op, a, b) =>
      var x := Eval(h, locals, a, m);
      if x.out.Err? then x
      else
        var y := Eval(h, locals, b, x.m);
        if y.out.Err? then y
        else Charged(h, Run(NumBinop(h.std, op, x.out.value, y.out.value), y.m))
    case Cmp(op, a, b) =>
      var x := Eval(h, locals, a, m);
      if x.out.Err? then x
      else
        var y := Eval(h, locals, b, x.m);
        if y.out.Err? then y else Run(AsValue(Compare(h.std, op, x.out.value, y.out.value)), y.m)
    case Logic(op, a, b) =>
      var x := Eval(h, locals, a, m);
      if x.out.Err? then x
      else if AsBool(h.std, x.out.value) == op.Or? then Run(Ok(Bool(op.Or?)), x.m)
      else
        var y := Eval(h, locals, b, x.m);
        if y.out.Err? then y else Run(Ok(Bool(AsBool(h.std, y.out.value))), y.m)
    case Unary(op, a) =>
      var x := Eval(h, locals, a, m);
      if x.out.Err? then x else Run(ApplyUnary(h.std, op, x.out.value), x.m)
    case Index(a, b) =>
      var x := Eval(h, locals, a, m);
      if x.out.Err? then x
      else
        var y := Eval(h, locals, b, x.m);
        if y.out.Err? then y else Run(IndexInto(x.out.value, y.out.value), y.m)
    case If(c, t, f) =>
      var x := Eval(h, locals, c, m);
      if x.out.Err? then x
      else if AsBool(h.std, x.out.value) then Eval(h, locals, t, x.m)
      else Eval(h, locals, f, x.m)
    case Call(b, args) =>
      var vs := EvalAll(h, locals, args, 0, [], m);
      if vs.out.Err? then Run(Err(vs.out.error), vs.m)
      else Charged(h, CallBuiltin(h, b, vs.out.value, vs.m))
    case ListOf(args) =>
      var vs := EvalAll(h, locals, args, 0, [], m);
      if vs.out.Err? then Run(Err(vs.out.error), vs.m)
      else Charged(h, Run(Ok(List(vs.out.value)), vs.m))
  }

  /** The arguments from index `i` on, when `done` are the values of those before it. */
  function EvalAll(h: Host, locals: seq<Value>, args: seq<Expr>, i: nat, done: seq<Value>, m: Machine): Run<seq<Value>>
    decreases args, if i <= |args| then |args| - i else 0
  {
    if i >= |args| then Run(Ok(done), m)
    else
      var x := Eval(h, locals, args[i], m);
      if x.out.Err? then Run(Err(x.out.error), x.m)
      else EvalAll(h, locals, args, i + 1, done + [x.out.value], x.m)
  }

  function LookUp(h: Host, name: string): Result<Value> {
    var v := h.env(name);
    if v.Some? then Ok(v.value) else Err(UnknownName(name))
  }

  function AsValue(r: Result<bool>): Result<Value> {
    if r.Err? then Err(r.error) else Ok(Bool(r.value))
  }

  /** `fetch_extract`: the first hit of the probe among the buffers shown to it. */
  function Extract(probe: Probe, t: Transfer): Result<Value> {
    var hit := FirstHit(probe, t.bufs);
    if hit.Some? then Ok(hit.value)
    else if t.failure.Some? then Err(t.failure.value)
    else Err(FieldNotFound)
  }

  function ApplyFetch(h: Host, vals: seq<Value>, log: seq<Event>): Effect {
    if |vals| != 1 then Effect(WrongArity(vals), log)
    else if !vals[0].Str? then Effect(Bad(ExpectsString), log)
    else if h.net.None? then Effect(Err(NoNetwork), log)
    else
      var body := h.net.value.fetch(log, vals[0].s);
      Effect(if body.Err? then Err(body.error) else Ok(Str(body.value)), log + [Fetched(vals[0].s)])
  }

  function ApplyFetchJson(h: Host, vals: seq<Value>, log: seq<Event>): Effect {
    if |vals| != 2 then Effect(WrongArity(vals), log)
    else if !vals[0].Str? || !vals[1].Str? then Effect(Bad(ExpectsString), log)
    else if h.net.None? then Effect(Err(NoNetwork), log)
    else
      var t := h.net.value.stream(log, vals[0].s);
      Effect(Extract(JsonProbe(h.std, vals[1].s), t), log + [Streamed(vals[0].s)])
  }

  function Dispatch(h: Host, b: Builtin, vals: seq<Value>, log: seq<Event>): Effect {
    if b.FetchUrl? then ApplyFetch(h, vals, log)
    else if b.FetchJson? then ApplyFetchJson(h, vals, log)
    else ApplyBuiltin(h.std, b, vals, h.display, h.actuator, log)
  }

  function CallBuiltin(h: Host, b: Builtin, vals: seq<Value>, m: Machine): Run<Value> {
    var e := Dispatch(h, b, vals, m.log);
    Run(e.out, m.(log := e.log))
  }

  // ---- whole programs ------------------------------------------------------------------------

  function Zeros(n: nat): seq<Value> { seq(n, i => Int(0)) }

  /** The `let`s from index `i` on, then the return expression. */
  function RunFrom(h: Host, p: Program, i: nat, locals: seq<Value>, m: Machine): Run<Value>
    decreases if i <= |p.body| then |p.body| - i else 0
  {
    if i >= |p.body| then Eval(h, locals, p.ret, m)
    else
      var x := Eval(h, locals, p.body[i].expr, m);
      if x.out.Err? then x
      else if p.body[i].slot >= |locals| then Run(Err(Panic), x.m)
      else RunFrom(h, p, i + 1, locals[p.body[i].slot := x.out.value], x.m)
  }

  function RunWith(h: Host, p: Program, maxSteps: nat, maxBytes: nat): Run<Value> {
    RunFrom(h, p, 0, Zeros(p.nLocals), Machine(maxSteps, maxBytes, 0, []))
  }

  // ---- the evaluator as it runs --------------------------------------------------------------

  class Frame {
    const host: Host
    var locals: seq<Value>
    var budget: nat
    var mem: nat
    var sinceCheck: nat
    var log: seq<Event>

    constructor (host: Host, nLocals: nat, maxSteps: nat, maxBytes: nat)
      ensures this.host == host && locals == Zeros(nLocals)
      ensures Counters() == Machine(maxSteps, maxBytes, 0, [])
    {
      this.host := host;
      locals := Zeros(nLocals);
      budget, mem, sinceCheck, log := maxSteps, maxBytes, 0, [];
    }

    ghost function Counters(): Machine
      reads this
    {
      Machine(budget, mem, sinceCheck, log)
    }

    method Step() returns (r: Result<bool>)
      modifies this`budget, this`sinceCheck, this`log
      ensures Run(r, Counters()) == Tick(host, old(Counters()))
    {
      if budget == 0 {
        return Err(Budget);
      }
      budget := budget - 1;
      if host.deadline.Some? {
        sinceCheck := sinceCheck + 1;
        if sinceCheck >= DEADLINE_CHECK_INTERVAL {
          sinceCheck := 0;
          var late := host.deadline.value(log, budget);
          log := log + [ClockRead];
          if late {
            return Err(Timeout);
          }
        }
      }
      return Ok(true);
    }

    method ChargeValue(out: Result<Value>) returns (r: Result<Value>)
      modifies this`mem
      ensures Run(r, Counters()) == Charged(host, Run(out, old(Counters())))
    {
      if out.Err? {
        return out;
      }
      var cost := Charge(host.valueSize, out.value);
      if mem < cost {
        return Err(MemoryLimit);
      }
      mem := mem - cost;
      return out;
    }

    method Evaluate(e: Expr) returns (r: Result<Value>)
      modifies this`budget, this`mem, this`sinceCheck, this`log
      ensures Run(r, Counters()) == Eval(host, locals, e, old(Counters()))
      decreases e, 2
    {
      hide Tick, EvalNode;
      var t := Step();
      if t.Err? {
        return Err(t.error);
      }
      r := EvaluateNode(e);
    }

    method EvaluateNode(e: Expr) returns (r: Result<Value>)
      modifies this`budget, this`mem, this`sinceCheck, this`log
      ensures Run(r, Counters()) == EvalNode(host, locals, e, old(Counters()))
      decreases e, 1
    {
      hide Eval, EvalAll, Charged, CallBuiltin, LookUp, AsValue;
      match e
      case Const(v) => r := Ok(v);
      case Local(i) => r := if i < |locals| then Ok(locals[i]) else Err(Panic);
      case Var(name) => r := LookUp(host, name);
      case Bin(op, a, b) =>
        var x, y := EvaluateBoth(a, b, e);
        if x.Err? { return x; }
        if y.Err? { return y; }
        r := ChargeValue(NumBinop(host.std, op, x.value, y.value));
      case Cmp(op, a, b) =>
        var x, y := EvaluateBoth(a, b, e);
        if x.Err? { return x; }
        if y.Err? { return y; }
        r := AsValue(Compare(host.std, op, x.value, y.value));
      case Logic(op, a, b) =>
        var x := Evaluate(a);
        if x.Err? { return x; }
        var l := AsBool(host.std, x.value);
        if op.And? && !l { return Ok(Bool(false)); }
        if op.Or? && l { return Ok(Bool(true)); }
        var y := Evaluate(b);
        if y.Err? { return y; }
        r := Ok(Bool(AsBool(host.std, y.value)));
      case Unary(op, a) =>
        var x := Evaluate(a);
        if x.Err? { return x; }
        r := ApplyUnary(host.std, op, x.value);
      case Index(a, b) =>
        var x, y := EvaluateBoth(a, b, e);
        if x.Err? { return x; }
        if y.Err? { return y; }
        r := IndexInto(x.value, y.value);
      case If(c, t, f) =>
        var x := Evaluate(c);
        if x.Err? { return x; }
        if AsBool(host.std, x.value) { r := Evaluate(t); } else { r := Evaluate(f); }
      case Call(b, args) =>
        var vs := EvaluateAll(args);
        if vs.Err? { return Err(vs.error); }
        var v := CallWith(b, vs.value);
        r := ChargeValue(v);
      case ListOf(args) =>
        var vs := EvaluateAll(args);
        if vs.Err? { return Err(vs.error); }
        r := ChargeValue(Ok(List(vs.value)));
    }

    /** Two operands, left first; the right one is not touched if the left one fails. */
    method EvaluateBoth(a: Expr, b: Expr, ghost whole: Expr) returns (x: Result<Value>, y: Result<Value>)
      requires a < whole && b < whole
      modifies this`budget, this`mem, this`sinceCheck, this`log
      ensures var first := Eval(host, locals, a, old(Counters()));
              x == first.out &&
              if x.Err? then Counters() == first.m else Run(y, Counters()) == Eval(host, locals, b, first.m)
      decreases whole, 0
    {
      hide Eval;
      x := Evaluate(a);
      y := x;
      if x.Ok? {
        y := Evaluate(b);
      }
    }

    method EvaluateAll(args: seq<Expr>) returns (r: Result<seq<Value>>)
      modifies this`budget, this`mem, this`sinceCheck, this`log
      ensures Run(r, Counters()) == EvalAll(host, locals, args, 0, [], old(Counters()))
      decreases args, 0
    {
      hide Eval;
      var vals: seq<Value> := [];
      var i := 0;
      while i < |args|
        invariant 0 <= i <= |args|
        invariant EvalAll(host, locals, args, 0, [], old(Counters())) == EvalAll(host, locals, args, i, vals, Counters())
      {
        var v := Evaluate(args[i]);
        if v.Err? {
          return Err(v.error);
        }
        vals := vals + [v.value];
        i := i + 1;
      }
      r := Ok(vals);
    }

    method CallWith(b: Builtin, vals: seq<Value>) returns (r: Result<Value>)
      modifies this`log
      ensures Run(r, Counters()) == CallBuiltin(host, b, vals, old(Counters()))
    {
      hide Dispatch;
      var e := Dispatch(host, b, vals, log);
      log := e.log;
      r := e.out;
    }

    method RunProgram(p: Program) returns (r: Result<Value>)
      modifies this
      ensures Run(r, Counters()) == RunFrom(host, p, 0, old(locals), old(Counters()))
    {
      hide Eval;
      var i := 0;
      while i < |p.body|
        invariant 0 <= i <= |p.body|
        invariant RunFrom(host, p, 0, old(locals), old(Counters())) == RunFrom(host, p, i, locals, Counters())
      {
        var v := Evaluate(p.body[i].expr);
        if v.Err? {
          return v;
        }
        if p.body[i].slot >= |locals| {
          return Err(Panic);
        }
        locals := locals[p.body[i].slot := v.value];
        i := i + 1;
      }
      r := Evaluate(p.ret);
    }
  }

  method RunProgramWith(h: Host, p: Program, maxSteps: nat, maxBytes: nat) returns (r: Result<Value>)
    ensures r == RunWith(h, p, maxSteps, maxBytes).out
  {
    hide RunFrom;
    var f := new Frame(h, p.nLocals, maxSteps, maxBytes);
    r := f.RunProgram(p);
  }
}
