/** The compile-time interpreter as it runs, on one environment and one budget. */
module Interpreter {
  import opened Ctfe

  datatype Answer<T> = Crashed | NoValue | Got(value: T)

  class Machine {
    const tab: Table
    var env: Env
    var budget: nat

    constructor (tab: Table, budget: nat)
      ensures this.tab == tab && this.budget == budget && env == map[]
    {
      this.tab, this.budget, env := tab, budget, map[];
    }

    /** The answer is the outcome specified, the budget what it leaves. */
    predicate Agrees<T(==)>(o: Outcome<T>, a: Answer<T>)
      reads this`budget
    {
      match a
      case Crashed => o.Crash?
      case NoValue => o.Fails?
      case Got(v) => o == Done(v, budget)
    }

    /** Likewise for a statement, which also leaves an environment. */
    predicate AgreesFlow(o: Outcome<(Flow, Env)>, a: Answer<Flow>)
      reads this
    {
      match a
      case Crashed => o.Crash?
      case NoValue => o.Fails?
      case Got(f) => o == Done((f, env), budget)
    }

    method Eval(e: Expr) returns (a: Answer<I64>)
      modifies this`budget
      ensures Agrees(CtExpr(tab, e, env, old(budget)), a)
      decreases 2 * budget, e, 0
    {
      if budget == 0 { return NoValue; }
      budget := budget - 1;
      match e
      case Lit(n) => a := Got(n);
      case Ident(n) =>
        a := if n in env then Got(env[n]) else if n in tab.consts then Got(tab.consts[n]) else NoValue;
      case Un(op, x) =>
        a := Eval(x);
        if a.Got? { a := Got(Unary(op, a.value)); }
      case Bin(op, l, r) => a := EvalBin(op, l, r);
      case Call(callee, args) =>
        if !callee.Ident? { return NoValue; }
        var vals := EvalArgs(args);
        if vals.Crashed? { return Crashed; }
        if vals.NoValue? { return NoValue; }
        var left := RunFn(callee.name, vals.value, budget);
        a := left.0;
        budget := left.1;
      case Unsupported => a := NoValue;
    }

    method EvalBin(op: BinOp, l: Expr, r: Expr) returns (a: Answer<I64>)
      modifies this`budget
      ensures Agrees(CtBin(tab, op, l, r, env, old(budget)), a)
      decreases 2 * budget + 1, l
    {
      a := Eval(l);
      if a.Got? { a := EvalRight(op, a.value, r); }
    }

    method EvalRight(op: BinOp, x: I64, r: Expr) returns (a: Answer<I64>)
      modifies this`budget
      ensures Agrees(CtRight(tab, op, x, r, env, old(budget)), a)
      decreases 2 * budget + 1, r
    {
      if op == And && x == 0 { return Got(0); }
      if op == Or && x != 0 { return Got(1); }
      a := Eval(r);
      if !a.Got? { return; }
      if op == And || op == Or { return Got(Truth(a.value != 0)); }
      a := Apply(op, x, a.value);
    }

    method Apply(op: BinOp, x: I64, y: I64) returns (a: Answer<I64>)
      ensures Agrees(Binary(op, x, y, budget), a)
    {
      match Binary(op, x, y, budget)
      case Crash => a := Crashed;
      case Fails => a := NoValue;
      case Done(v, _) => a := Got(v);
    }

    method EvalArgs(args: seq<Expr>) returns (a: Answer<seq<I64>>)
      modifies this`budget
      ensures Agrees(CtArgs(tab, args, env, old(budget)), a)
      decreases 2 * budget, args, 0
    {
      if |args| == 0 { return Got([]); }
      var first := Eval(args[0]);
      if first.Crashed? { return Crashed; }
      if first.NoValue? { return NoValue; }
      a := EvalArgs(args[1..]);
      if a.Got? { a := Got([first.value] + a.value); }
    }

    /** A call runs on an environment of its own and on the caller's budget. */
    method RunFn(name: string, vals: seq<I64>, budget: nat) returns (r: (Answer<I64>, nat))
      ensures EvalConstFn(tab, name, vals, budget) ==
              match r.0 { case Crashed => Crash case NoValue => Fails case Got(v) => Done(v, r.1) }
      decreases 2 * budget + 1
    {
      if name !in tab.fns || |tab.fns[name].params| != |vals| { return (NoValue, budget); }
      var m := new Machine(tab, budget);
      m.env := Ctfe.Bind(tab.fns[name].params, vals);
      var flow := m.RunBlock(tab.fns[name].body);
      match flow
      case Crashed => r := (Crashed, budget);
      case NoValue => r := (NoValue, budget);
      case Got(f) =>
        match f
        case Returned(v) => r := (Got(v), m.budget);
        case Normal => r := (Got(0), m.budget);
        case _ => r := (NoValue, budget);
    }

    method RunBlock(b: seq<Stmt>) returns (a: Answer<Flow>)
      modifies this
      ensures AgreesFlow(CtBlock(tab, b, old(env), old(budget)), a)
      decreases 2 * budget, b, 1
    {
      var i := 0;
      while i < |b|
        invariant i <= |b| && budget <= old(budget)
        invariant CtBlock(tab, b, old(env), old(budget)) == CtBlock(tab, b[i..], env, budget)
      {
        assert b[i..][0] == b[i] && b[i..][1..] == b[i + 1..];
        a := RunStmt(b[i]);
        if !a.Got? || a.value != Normal { return; }
        i := i + 1;
      }
      a := Got(Normal);
    }

    method RunStmt(s: Stmt) returns (a: Answer<Flow>)
      modifies this
      ensures AgreesFlow(CtStmt(tab, s, old(env), old(budget)), a)
      decreases 2 * budget, s, 0
    {
      if budget == 0 { return NoValue; }
      budget := budget - 1;
      a := RunSimple(s);
    }

    method RunSimple(s: Stmt) returns (a: Answer<Flow>)
      modifies this
      ensures AgreesFlow(CtSimple(tab, s, old(env), old(budget)), a)
      decreases 2 * budget, s, 1
    {
      match s
      case Let(name, init) =>
        var v := Eval(init);
        if v.Got? { env := env[name := v.value]; }
        a := Then(v, Normal);
      case Assign(aop, place, value) =>
        if !place.Ident? { return NoValue; }
        var v := Eval(value);
        if !v.Got? { return Then(v, Normal); }
        a := Put(aop, place.name, v.value);
      case Do(e) =>
        var v := Eval(e);
        a := Then(v, Normal);
      case Return(e) =>
        var v := Eval(e);
        a := if v.Got? then Got(Returned(v.value)) else Then(v, Normal);
      case ReturnUnit => a := Got(Returned(0));
      case If(cond, thn, els) =>
        a := RunIf(cond, thn, els);
      case While(cond, body) => a := RunWhile(cond, body);
      case Nested(b) => a := RunBlock(b);
      case Break => a := Got(Broke);
      case Continue => a := Got(Continued);
      case Other => a := NoValue;
    }

    function Then(v: Answer<I64>, f: Flow): Answer<Flow> {
      match v case Crashed => Crashed case NoValue => NoValue case Got(_) => Got(f)
    }

    method Put(aop: AssignOp, name: string, v: I64) returns (a: Answer<Flow>)
      modifies this`env
      ensures AgreesFlow(Store(aop, name, v, old(env), budget), a)
    {
      match Store(aop, name, v, env, budget)
      case Crash => a := Crashed;
      case Fails => a := NoValue;
      case Done((_, next), _) => env, a := next, Got(Normal);
    }

    method RunIf(cond: Expr, thn: seq<Stmt>, els: seq<Stmt>) returns (a: Answer<Flow>)
      modifies this
      ensures AgreesFlow(CtIf(tab, cond, thn, els, old(env), old(budget)), a)
      decreases 2 * budget, cond, 2
    {
      var v := Eval(cond);
      if !v.Got? { return Then(v, Normal); }
      a := RunBlock(if v.value != 0 then thn else els);
    }

    method RunWhile(cond: Expr, body: seq<Stmt>) returns (a: Answer<Flow>)
      modifies this
      ensures AgreesFlow(CtWhile(tab, cond, body, old(env), old(budget)), a)
      decreases 2 * budget, cond, 2
    {
      while true
        invariant budget <= old(budget)
        invariant CtWhile(tab, cond, body, old(env), old(budget)) == CtWhile(tab, cond, body, env, budget)
        decreases budget
      {
        var v := Eval(cond);
        if !v.Got? { return Then(v, Normal); }
        if v.value == 0 { return Got(Normal); }
        if budget == 0 { return NoValue; }
        budget := budget - 1;
        a := RunBlock(body);
        if !a.Got? { return; }
        if a.value == Broke { return Got(Normal); }
        if a.value.Returned? { return; }
      }
    }
  }
}
