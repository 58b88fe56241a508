/** The meaning of compile-time functions without a step budget: rules of inference, one group
    for each construct, and finite derivations from them.  The interpreter finds a value on
    some budget exactly when there is a derivation of it. */
module Derivations {
  import opened Options
  import opened Ctfe
  import opened OperatorLaws

  datatype Judgment =
    | Value(e: Expr, env: Env, v: I64)
    | Values(args: seq<Expr>, env: Env, vs: seq<I64>)
    | Effect(s: Stmt, env: Env, flow: Flow, after: Env)
    | Effects(b: seq<Stmt>, env: Env, flow: Flow, after: Env)
    | Result(f: string, vals: seq<I64>, v: I64)

  // -------------------------------------------------------------------------- rules

  /** The first `n` premises are values in `env` of the expressions `es`. */
  predicate Evaluated(ps: seq<Judgment>, es: seq<Expr>, env: Env) {
    |ps| >= |es| && forall i | 0 <= i < |es| :: ps[i].Value? && ps[i].e == es[i] && ps[i].env == env
  }

  ghost predicate ValueRule(tab: Table, e: Expr, env: Env, v: I64, ps: seq<Judgment>) {
    match e
    case Lit(n) => ps == [] && v == n
    case Ident(x) => ps == [] && (if x in env then v == env[x] else x in tab.consts && v == tab.consts[x])
    case Un(op, x) => |ps| == 1 && Evaluated(ps, [x], env) && UnaryLaw(op, ps[0].v, v)
    case Bin(op, l, r) =>
      if |ps| == 1 then Evaluated(ps, [l], env) && DecidedBy(op, ps[0].v, v)
      else |ps| == 2 && Evaluated(ps, [l, r], env) && FromBoth(op, ps[0].v, ps[1].v, v)
    case Call(callee, args) =>
      && callee.Ident? && |ps| == 2 && ps[0].Values? && ps[0].args == args && ps[0].env == env
      && ps[1] == Result(callee.name, ps[0].vs, v)
    case Unsupported => false
  }

  /** `&&` and `||` need only the left value when it is the one that decides. */
  predicate DecidedBy(op: BinOp, a: I64, v: I64) {
    (op == And && a == 0 && v == 0) || (op == Or && a != 0 && v == 1)
  }

  ghost predicate FromBoth(op: BinOp, a: I64, b: I64, v: I64) {
    if op == And then a != 0 && Decides(v, b != 0)
    else if op == Or then a == 0 && Decides(v, b != 0)
    else BinaryLaw(op, a, b, v)
  }

  predicate ValuesRule(args: seq<Expr>, env: Env, vs: seq<I64>, ps: seq<Judgment>) {
    |ps| == |args| == |vs| && Evaluated(ps, args, env) && forall i | 0 <= i < |vs| :: ps[i].v == vs[i]
  }

  /** A compound assignment reads a name without a value as 0. */
  function Current(env: Env, x: string): I64 {
    if x in env then env[x] else 0
  }

  ghost predicate Stores(aop: AssignOp, x: string, v: I64, env: Env, after: Env) {
    if aop.Plain? then after == env[x := v]
    else
      && aop.op in {Add, Sub, Mul, Div, Mod}
      && exists n :: BinaryLaw(aop.op, Current(env, x), v, n) && after == env[x := n]
  }

  ghost predicate EffectRule(s: Stmt, env: Env, flow: Flow, after: Env, ps: seq<Judgment>) {
    match s
    case Let(x, init) => |ps| == 1 && Evaluated(ps, [init], env) && flow == Normal && after == env[x := ps[0].v]
    case Assign(aop, place, value) =>
      && place.Ident? && |ps| == 1 && Evaluated(ps, [value], env)
      && flow == Normal && Stores(aop, place.name, ps[0].v, env, after)
    case Do(e) => |ps| == 1 && Evaluated(ps, [e], env) && flow == Normal && after == env
    case Return(e) => |ps| == 1 && Evaluated(ps, [e], env) && flow == Returned(ps[0].v) && after == env
    case ReturnUnit => ps == [] && flow == Returned(0) && after == env
    case If(cond, thn, els) =>
      && |ps| == 2 && Evaluated(ps, [cond], env)
      && ps[1] == Effects(if ps[0].v == 0 then els else thn, env, flow, after)
    case While(cond, body) => Evaluated(ps, [cond], env) && WhileRule(cond, body, env, flow, after, ps)
    case Nested(b) => ps == [Effects(b, env, flow, after)]
    case Break => ps == [] && flow == Broke && after == env
    case Continue => ps == [] && flow == Continued && after == env
    case Other => false
  }

  /** A loop ends when its condition is 0, or with a round that breaks or returns; any other
      round is followed by the loop again. */
  ghost predicate WhileRule(cond: Expr, body: seq<Stmt>, env: Env, flow: Flow, after: Env, ps: seq<Judgment>)
    requires |ps| > 0 && ps[0].Value?
  {
    if |ps| == 1 then ps[0].v == 0 && flow == Normal && after == env
    else
      && ps[0].v != 0 && ps[1].Effects? && ps[1].b == body && ps[1].env == env
      && if |ps| == 2 then
           ps[1].after == after && (if ps[1].flow == Broke then flow == Normal else ps[1].flow.Returned? && flow == ps[1].flow)
         else
           && |ps| == 3 && (ps[1].flow == Normal || ps[1].flow == Continued)
           && ps[2] == Effect(While(cond, body), ps[1].after, flow, after)
  }

  ghost predicate EffectsRule(b: seq<Stmt>, env: Env, flow: Flow, after: Env, ps: seq<Judgment>) {
    if |b| == 0 then ps == [] && flow == Normal && after == env
    else
      && |ps| > 0 && ps[0].Effect? && ps[0].s == b[0] && ps[0].env == env
      && if |ps| == 1 then ps[0].flow != Normal && flow == ps[0].flow && after == ps[0].after
         else |ps| == 2 && ps[0].flow == Normal && ps[1] == Effects(b[1..], ps[0].after, flow, after)
  }

  /** The parameters, each with its argument; of two with the same name the last counts. */
  ghost predicate Bound(params: seq<string>, vals: seq<I64>, env: Env)
    requires |params| == |vals|
  {
    && (forall x :: x in env <==> x in params)
    && forall i | 0 <= i < |params| && params[i] !in params[i + 1..] :: env[params[i]] == vals[i]
  }

  ghost predicate ResultRule(tab: Table, f: string, vals: seq<I64>, v: I64, ps: seq<Judgment>) {
    && f in tab.fns && |tab.fns[f].params| == |vals|
    && |ps| == 1 && ps[0].Effects? && ps[0].b == tab.fns[f].body && Bound(tab.fns[f].params, vals, ps[0].env)
    && (ps[0].flow == Returned(v) || (ps[0].flow == Normal && v == 0))
  }

  ghost predicate Rule(tab: Table, goal: Judgment, ps: seq<Judgment>) {
    match goal
    case Value(e, env, v) => ValueRule(tab, e, env, v, ps)
    case Values(args, env, vs) => ValuesRule(args, env, vs, ps)
    case Effect(s, env, flow, after) => EffectRule(s, env, flow, after, ps)
    case Effects(b, env, flow, after) => EffectsRule(b, env, flow, after, ps)
    case Result(f, vals, v) => ResultRule(tab, f, vals, v, ps)
  }

  datatype Tree = Tree(goal: Judgment, premises: seq<Tree>)

  function Goals(ts: seq<Tree>): seq<Judgment> {
    seq(|ts|, i requires 0 <= i < |ts| => ts[i].goal)
  }

  ghost predicate Derives(tab: Table, t: Tree)
    decreases t
  {
    Rule(tab, t.goal, Goals(t.premises)) && forall i | 0 <= i < |t.premises| :: Derives(tab, t.premises[i])
  }

  ghost predicate Derivable(tab: Table, goal: Judgment) {
    exists t :: Derives(tab, t) && t.goal == goal
  }

  // ------------------------------------------------ what the interpreter finds is derivable

  lemma {:induction false} Grown(tab: Table, ps: seq<Judgment>) returns (ts: seq<Tree>)
    requires forall i | 0 <= i < |ps| :: Derivable(tab, ps[i])
    ensures Goals(ts) == ps && forall i | 0 <= i < |ts| :: Derives(tab, ts[i])
    decreases |ps|
  {
    hide Derives;
    if |ps| == 0 {
      ts := [];
    } else {
      assert Derivable(tab, ps[0]);
      var t :| Derives(tab, t) && t.goal == ps[0];
      forall i | 0 <= i < |ps[1..]| ensures Derivable(tab, ps[1..][i]) {
        assert Derivable(tab, ps[i + 1]);
      }
      var rest := Grown(tab, ps[1..]);
      ts := [t] + rest;
      assert Goals(ts) == [ps[0]] + Goals(rest);
    }
  }

  lemma Infer(tab: Table, goal: Judgment, ps: seq<Judgment>)
    requires Rule(tab, goal, ps) && forall i | 0 <= i < |ps| :: Derivable(tab, ps[i])
    ensures Derivable(tab, goal)
  {
    var ts := Grown(tab, ps);
    assert Derives(tab, Tree(goal, ts));
  }

  lemma {:induction false} BindIsBound(params: seq<string>, vals: seq<I64>)
    requires |params| == |vals|
    ensures Bound(params, vals, Bind(params, vals))
    decreases |params|
  {
    if |params| > 0 {
      var n := |params| - 1;
      var ps, vs, env := params[..n], vals[..n], Bind(params, vals);
      BindIsBound(ps, vs);
      forall i | 0 <= i < |params| && params[i] !in params[i + 1..] ensures env[params[i]] == vals[i] {
        if i < n {
          assert params[i + 1..] == ps[i + 1..] + [params[n]];
          assert params[i] == ps[i];
        }
      }
    }
  }

  lemma {:induction false} ExprDerives(tab: Table, e: Expr, env: Env, budget: nat)
    requires CtExpr(tab, e, env, budget).Done?
    ensures Derivable(tab, Value(e, env, CtExpr(tab, e, env, budget).value))
    decreases 2 * budget, e, 0
  {
    hide Derivable, UnaryLaw, BinaryLaw, Compute;
    var v := CtExpr(tab, e, env, budget).value;
    match e
    case Lit(_) => Infer(tab, Value(e, env, v), []);
    case Ident(_) => Infer(tab, Value(e, env, v), []);
    case Un(op, x) =>
      var a := CtExpr(tab, x, env, budget - 1).value;
      ExprDerives(tab, x, env, budget - 1);
      UnaryIsLawful(op, a, v);
      Infer(tab, Value(e, env, v), [Value(x, env, a)]);
    case Bin(op, l, r) => BinDerives(tab, op, l, r, env, budget - 1);
    case Call(callee, args) =>
      var o := CtArgs(tab, args, env, budget - 1);
      ArgsDerive(tab, args, env, budget - 1);
      FnDerives(tab, callee.name, o.value, o.left);
      Infer(tab, Value(e, env, v), [Values(args, env, o.value), Result(callee.name, o.value, v)]);
  }

  lemma {:induction false} BinDerives(tab: Table, op: BinOp, l: Expr, r: Expr, env: Env, budget: nat)
    requires CtBin(tab, op, l, r, env, budget).Done?
    ensures Derivable(tab, Value(Bin(op, l, r), env, CtBin(tab, op, l, r, env, budget).value))
    decreases 2 * budget + 1, l
  {
    hide Derivable, UnaryLaw, BinaryLaw, Compute;
    var goal := Value(Bin(op, l, r), env, CtBin(tab, op, l, r, env, budget).value);
    var a := CtExpr(tab, l, env, budget);
    ExprDerives(tab, l, env, budget);
    if (op == And && a.value == 0) || (op == Or && a.value != 0) {
      Infer(tab, goal, [Value(l, env, a.value)]);
    } else {
      var b := CtExpr(tab, r, env, a.left);
      ExprDerives(tab, r, env, a.left);
      BinaryIsLawful(op, a.value, b.value, goal.v);
      Infer(tab, goal, [Value(l, env, a.value), Value(r, env, b.value)]);
    }
  }

  lemma {:induction false} ArgsDerive(tab: Table, args: seq<Expr>, env: Env, budget: nat)
    requires CtArgs(tab, args, env, budget).Done?
    ensures Derivable(tab, Values(args, env, CtArgs(tab, args, env, budget).value))
    decreases 2 * budget, args, 1
  {
    hide Derivable;
    var vs := CtArgs(tab, args, env, budget).value;
    EachDerives(tab, args, env, budget);
    Infer(tab, Values(args, env, vs), seq(|args|, i requires 0 <= i < |args| => Value(args[i], env, vs[i])));
  }

  lemma {:induction false} EachDerives(tab: Table, args: seq<Expr>, env: Env, budget: nat)
    requires CtArgs(tab, args, env, budget).Done?
    ensures var vs := CtArgs(tab, args, env, budget).value;
            |vs| == |args| && forall i | 0 <= i < |args| :: Derivable(tab, Value(args[i], env, vs[i]))
    decreases 2 * budget, args, 0
  {
    hide Derivable;
    if |args| > 0 {
      var o := CtExpr(tab, args[0], env, budget);
      ExprDerives(tab, args[0], env, budget);
      EachDerives(tab, args[1..], env, o.left);
      var vs, rest := CtArgs(tab, args, env, budget).value, CtArgs(tab, args[1..], env, o.left).value;
      assert vs == [o.value] + rest;
      forall i | 0 <= i < |args| ensures Derivable(tab, Value(args[i], env, vs[i])) {
        if i > 0 { assert args[i] == args[1..][i - 1] && vs[i] == rest[i - 1]; }
      }
    }
  }

  lemma {:induction false} FnDerives(tab: Table, f: string, vals: seq<I64>, budget: nat)
    requires EvalConstFn(tab, f, vals, budget).Done?
    ensures Derivable(tab, Result(f, vals, EvalConstFn(tab, f, vals, budget).value))
    decreases 2 * budget + 1
  {
    hide Derivable;
    var fn := tab.fns[f];
    var env := Bind(fn.params, vals);
    var o := CtBlock(tab, fn.body, env, budget);
    BlockDerives(tab, fn.body, env, budget);
    BindIsBound(fn.params, vals);
    Infer(tab, Result(f, vals, EvalConstFn(tab, f, vals, budget).value), [Effects(fn.body, env, o.value.0, o.value.1)]);
  }

  /** The outcome of statements, as a judgment. */
  ghost predicate Came(tab: Table, b: seq<Stmt>, env: Env, o: Outcome<(Flow, Env)>) {
    o.Done? ==> Derivable(tab, Effects(b, env, o.value.0, o.value.1))
  }

  ghost predicate CameStmt(tab: Table, s: Stmt, env: Env, o: Outcome<(Flow, Env)>) {
    o.Done? ==> Derivable(tab, Effect(s, env, o.value.0, o.value.1))
  }

  lemma {:induction false} BlockDerives(tab: Table, b: seq<Stmt>, env: Env, budget: nat)
    ensures Came(tab, b, env, CtBlock(tab, b, env, budget))
    decreases 2 * budget, b, 1
  {
    hide Derivable;
    var all := CtBlock(tab, b, env, budget);
    if |b| == 0 {
      Infer(tab, Effects(b, env, Normal, env), []);
    } else if all.Done? {
      var o := CtStmt(tab, b[0], env, budget);
      StmtDerives(tab, b[0], env, budget);
      var first := Effect(b[0], env, o.value.0, o.value.1);
      var goal := Effects(b, env, all.value.0, all.value.1);
      if o.value.0 == Normal {
        BlockDerives(tab, b[1..], o.value.1, o.left);
        Infer(tab, goal, [first, Effects(b[1..], o.value.1, all.value.0, all.value.1)]);
      } else {
        Infer(tab, goal, [first]);
      }
    }
  }

  lemma {:induction false} StmtDerives(tab: Table, s: Stmt, env: Env, budget: nat)
    ensures CameStmt(tab, s, env, CtStmt(tab, s, env, budget))
    decreases 2 * budget, s, 0
  {
    if budget > 0 { SimpleDerives(tab, s, env, budget - 1); }
  }

  lemma {:induction false} SimpleDerives(tab: Table, s: Stmt, env: Env, budget: nat)
    ensures CameStmt(tab, s, env, CtSimple(tab, s, env, budget))
    decreases 2 * budget, s, 1
  {
    hide Derivable, UnaryLaw, BinaryLaw, Compute;
    var o := CtSimple(tab, s, env, budget);
    if o.Done? {
      var goal := Effect(s, env, o.value.0, o.value.1);
      match s
      case Let(_, e) => ExprDerives(tab, e, env, budget); Infer(tab, goal, [Value(e, env, CtExpr(tab, e, env, budget).value)]);
      case Do(e) => ExprDerives(tab, e, env, budget); Infer(tab, goal, [Value(e, env, CtExpr(tab, e, env, budget).value)]);
      case Return(e) => ExprDerives(tab, e, env, budget); Infer(tab, goal, [Value(e, env, CtExpr(tab, e, env, budget).value)]);
      case Assign(aop, place, e) =>
        var v := CtExpr(tab, e, env, budget).value;
        ExprDerives(tab, e, env, budget);
        StoreStores(aop, place.name, v, env, o.left);
        Infer(tab, goal, [Value(e, env, v)]);
      case If(cond, thn, els) => IfDerives(tab, cond, thn, els, env, budget);
      case While(cond, body) => WhileDerives(tab, cond, body, env, budget);
      case Nested(b) => BlockDerives(tab, b, env, budget); Infer(tab, goal, [Effects(b, env, o.value.0, o.value.1)]);
      case _ => Infer(tab, goal, []);
    }
  }

  lemma StoreStores(aop: AssignOp, x: string, v: I64, env: Env, left: nat)
    ensures var o := Store(aop, x, v, env, left);
            o.Done? ==> o.value.0 == Normal && Stores(aop, x, v, env, o.value.1)
  {
    var o := Store(aop, x, v, env, left);
    if o.Done? && aop.With? { BinaryIsLawful(aop.op, Current(env, x), v, o.value.1[x]); }
  }

  lemma {:induction false} IfDerives(tab: Table, cond: Expr, thn: seq<Stmt>, els: seq<Stmt>, env: Env, budget: nat)
    ensures CameStmt(tab, If(cond, thn, els), env, CtIf(tab, cond, thn, els, env, budget))
    decreases 2 * budget, cond, 2
  {
    hide Derivable;
    var o := CtIf(tab, cond, thn, els, env, budget);
    if o.Done? {
      var c := CtExpr(tab, cond, env, budget);
      var b := if c.value == 0 then els else thn;
      ExprDerives(tab, cond, env, budget);
      BlockDerives(tab, b, env, c.left);
      Infer(tab, Effect(If(cond, thn, els), env, o.value.0, o.value.1),
            [Value(cond, env, c.value), Effects(b, env, o.value.0, o.value.1)]);
    }
  }

  lemma {:induction false} WhileDerives(tab: Table, cond: Expr, body: seq<Stmt>, env: Env, budget: nat)
    ensures CameStmt(tab, While(cond, body), env, CtWhile(tab, cond, body, env, budget))
    decreases 2 * budget, cond, 2
  {
    hide Derivable;
    var o := CtWhile(tab, cond, body, env, budget);
    if o.Done? {
      var c := CtExpr(tab, cond, env, budget);
      var goal := Effect(While(cond, body), env, o.value.0, o.value.1);
      ExprDerives(tab, cond, env, budget);
      if c.value == 0 {
        Infer(tab, goal, [Value(cond, env, 0)]);
      } else {
        RoundDerives(tab, cond, body, env, c.value, c.left - 1);
      }
    }
  }

  lemma {:induction false} RoundDerives(tab: Table, cond: Expr, body: seq<Stmt>, env: Env, c: I64, budget: nat)
    requires c != 0 && Derivable(tab, Value(cond, env, c))
    ensures CameStmt(tab, While(cond, body), env, CtRound(tab, cond, body, env, budget))
    decreases 2 * budget + 1, cond
  {
    hide Derivable;
    var all := CtRound(tab, cond, body, env, budget);
    if all.Done? {
      var o := CtBlock(tab, body, env, budget);
      var goal := Effect(While(cond, body), env, all.value.0, all.value.1);
      var test, round := Value(cond, env, c), Effects(body, env, o.value.0, o.value.1);
      BlockDerives(tab, body, env, budget);
      if o.value.0 == Normal || o.value.0 == Continued {
        WhileDerives(tab, cond, body, o.value.1, o.left);
        Infer(tab, goal, [test, round, Effect(While(cond, body), o.value.1, all.value.0, all.value.1)]);
      } else {
        Infer(tab, goal, [test, round]);
      }
    }
  }

  // ----------------------------------------------- what is derivable the interpreter finds

  /** The steps of one rule: a node of an expression, a statement, a round of a loop that is
      not followed by the loop again (which counts as a statement). */
  function Steps(goal: Judgment, premises: nat): nat {
    match goal
    case Value(_, _, _) => 1
    case Effect(s, _, _, _) => if s.While? && premises == 2 then 2 else 1
    case _ => 0
  }

  function Cost(t: Tree): nat
    decreases t
  {
    Steps(t.goal, |t.premises|) + CostAll(t.premises)
  }

  function CostAll(ts: seq<Tree>): nat
    decreases ts
  {
    if |ts| == 0 then 0 else Cost(ts[0]) + CostAll(ts[1..])
  }

  lemma CostStep(ts: seq<Tree>)
    requires |ts| > 0
    ensures CostAll(ts) == Cost(ts[0]) + CostAll(ts[1..])
  {
  }

  lemma CostOne(t: Tree)
    requires |t.premises| == 1
    ensures CostAll(t.premises) == Cost(t.premises[0])
  {
    CostStep(t.premises);
  }

  lemma CostTwo(t: Tree)
    requires |t.premises| == 2
    ensures CostAll(t.premises) == Cost(t.premises[0]) + Cost(t.premises[1])
  {
    hide Cost;
    CostStep(t.premises);
    CostStep(t.premises[1..]);
  }

  lemma CostThree(t: Tree)
    requires |t.premises| == 3
    ensures CostAll(t.premises) == Cost(t.premises[0]) + Cost(t.premises[1]) + Cost(t.premises[2])
  {
    hide Cost;
    CostStep(t.premises);
    CostStep(t.premises[1..]);
    CostStep(t.premises[1..][1..]);
  }

  /** The rule at the root, on the premises' own goals. */
  lemma Root(tab: Table, t: Tree)
    requires Derives(tab, t)
    ensures |Goals(t.premises)| == |t.premises| && Rule(tab, t.goal, Goals(t.premises))
    ensures forall i | 0 <= i < |t.premises| :: Goals(t.premises)[i] == t.premises[i].goal && Derives(tab, t.premises[i])
    ensures Cost(t) == Steps(t.goal, |t.premises|) + CostAll(t.premises)
    ensures t.premises == [] ==> CostAll(t.premises) == 0
  {
  }

  /** Two environments that bind the parameters are the same. */
  lemma {:induction false} LastBinding(params: seq<string>, x: string) returns (i: nat)
    requires x in params
    ensures i < |params| && params[i] == x && x !in params[i + 1..]
    decreases |params|
  {
    var n := |params| - 1;
    if params[n] == x {
      i := n;
    } else {
      assert params == params[..n] + [params[n]];
      i := LastBinding(params[..n], x);
      assert params[i + 1..] == params[..n][i + 1..] + [params[n]];
    }
  }

  lemma BoundOnce(params: seq<string>, vals: seq<I64>, a: Env, b: Env)
    requires |params| == |vals| && Bound(params, vals, a) && Bound(params, vals, b)
    ensures a == b
  {
    forall x | x in a ensures a[x] == b[x] {
      var i := LastBinding(params, x);
    }
  }

  lemma {:induction false} ExprRuns(tab: Table, t: Tree, budget: nat)
    requires Derives(tab, t) && t.goal.Value? && budget >= Cost(t)
    ensures CtExpr(tab, t.goal.e, t.goal.env, budget) == Done(t.goal.v, budget - Cost(t))
    decreases t, 1
  {
    hide Derives, Cost, CtExpr;
    match t.goal.e
    case Un(_, _) => ValueCost(t); UnRuns(tab, t, budget - 1);
    case Bin(_, _, _) =>
      ValueCost(t);
      BinRuns(tab, t, budget - 1);
      BinIs(tab, t.goal.e, t.goal.env, budget);
    case Call(_, _) => CallRuns(tab, t, budget);
    case _ => AtomRuns(tab, t, budget);
  }

  lemma ValueCost(t: Tree)
    requires t.goal.Value?
    ensures Cost(t) > 0
  {
  }

  lemma BinIs(tab: Table, e: Expr, env: Env, budget: nat)
    requires e.Bin? && budget > 0
    ensures CtExpr(tab, e, env, budget) == CtBin(tab, e.op, e.l, e.r, env, budget - 1)
  {
  }

  lemma AtomRuns(tab: Table, t: Tree, budget: nat)
    requires Derives(tab, t) && t.goal.Value? && budget >= Cost(t)
    requires t.goal.e.Lit? || t.goal.e.Ident? || t.goal.e.Unsupported?
    ensures CtExpr(tab, t.goal.e, t.goal.env, budget) == Done(t.goal.v, budget - Cost(t))
  {
    hide Derives, Cost, CostAll, Goals;
    Root(tab, t);
  }

  lemma {:induction false} UnRuns(tab: Table, t: Tree, budget: nat)
    requires Derives(tab, t) && t.goal.Value? && t.goal.e.Un? && budget + 1 >= Cost(t)
    ensures CtExpr(tab, t.goal.e, t.goal.env, budget + 1) == Done(t.goal.v, budget + 1 - Cost(t))
    decreases t, 0
  {
    hide Derives, Cost, CostAll, Goals;
    Root(tab, t);
    hide UnaryLaw, Unary;
    var p := t.premises[0];
    CostOne(t);
    ExprRuns(tab, p, budget);
    UnaryIsLawful(t.goal.e.uop, p.goal.v, t.goal.v);
  }

  lemma {:induction false} CallRuns(tab: Table, t: Tree, budget: nat)
    requires Derives(tab, t) && t.goal.Value? && t.goal.e.Call? && budget >= Cost(t)
    ensures CtExpr(tab, t.goal.e, t.goal.env, budget) == Done(t.goal.v, budget - Cost(t))
    decreases t, 0
  {
    hide Derives, Cost, CostAll, Goals;
    Root(tab, t);
    var ps := t.premises;
    CostTwo(t);
    ValuesRun(tab, ps[0], budget - 1);
    FnRuns(tab, ps[1], budget - 1 - Cost(ps[0]));
  }

  lemma {:induction false} BinRuns(tab: Table, t: Tree, budget: nat)
    requires Derives(tab, t) && t.goal.Value? && t.goal.e.Bin? && budget + 1 >= Cost(t)
    ensures CtBin(tab, t.goal.e.op, t.goal.e.l, t.goal.e.r, t.goal.env, budget) == Done(t.goal.v, budget + 1 - Cost(t))
    decreases t, 0
  {
    hide Derives, Cost, CostAll, Goals;
    Root(tab, t);
    var ps := t.premises;
    if |ps| == 1 {
      CostOne(t);
      ExprRuns(tab, ps[0], budget);
    } else {
      CostTwo(t);
      ExprRuns(tab, ps[0], budget);
      ExprRuns(tab, ps[1], budget - Cost(ps[0]));
      BinaryIsLawful(t.goal.e.op, ps[0].goal.v, ps[1].goal.v, t.goal.v);
    }
  }

  lemma {:induction false} ValuesRun(tab: Table, t: Tree, budget: nat)
    requires Derives(tab, t) && t.goal.Values? && budget >= Cost(t)
    ensures CtArgs(tab, t.goal.args, t.goal.env, budget) == Done(t.goal.vs, budget - Cost(t))
    decreases t, 1
  {
    hide Derives, Cost, CostAll, Goals;
    Root(tab, t);
    forall i | 0 <= i < |t.premises| ensures t.premises[i].goal == Value(t.goal.args[i], t.goal.env, t.goal.vs[i]) {
      assert Goals(t.premises)[i] == t.premises[i].goal;
    }
    EachRuns(tab, t.premises, t.goal.args, t.goal.env, t.goal.vs, budget);
  }

  lemma {:induction false} EachRuns(tab: Table, ts: seq<Tree>, args: seq<Expr>, env: Env, vs: seq<I64>, budget: nat)
    requires |ts| == |args| == |vs| && budget >= CostAll(ts)
    requires forall i | 0 <= i < |ts| :: Derives(tab, ts[i]) && ts[i].goal == Value(args[i], env, vs[i])
    ensures CtArgs(tab, args, env, budget) == Done(vs, budget - CostAll(ts))
    decreases ts, 0
  {
    hide Derives, Cost, CtExpr;
    if |ts| > 0 {
      ExprRuns(tab, ts[0], budget);
      EachRuns(tab, ts[1..], args[1..], env, vs[1..], budget - Cost(ts[0]));
      assert vs == [vs[0]] + vs[1..];
    } else {
      assert vs == [];
    }
  }

  lemma {:induction false} FnRuns(tab: Table, t: Tree, budget: nat)
    requires Derives(tab, t) && t.goal.Result? && budget >= Cost(t)
    ensures EvalConstFn(tab, t.goal.f, t.goal.vals, budget) == Done(t.goal.v, budget - Cost(t))
    decreases t, 1
  {
    hide Bound, Bind, CtBlock;
    hide Derives, Cost, CostAll, Goals;
    Root(tab, t);
    var p, fn := t.premises[0], tab.fns[t.goal.f];
    CostOne(t);
    BindIsBound(fn.params, t.goal.vals);
    BoundOnce(fn.params, t.goal.vals, p.goal.env, Bind(fn.params, t.goal.vals));
    BlockRuns(tab, p, budget);
  }

  lemma {:induction false} BlockRuns(tab: Table, t: Tree, budget: nat)
    requires Derives(tab, t) && t.goal.Effects? && budget >= Cost(t)
    ensures CtBlock(tab, t.goal.b, t.goal.env, budget) == Done((t.goal.flow, t.goal.after), budget - Cost(t))
    decreases t, 1
  {
    hide Derives, Cost, CostAll, Goals;
    Root(tab, t);
    var ps := t.premises;
    if |t.goal.b| > 0 {
      if |ps| == 1 {
        CostOne(t);
        StmtRuns(tab, ps[0], budget);
      } else {
        CostTwo(t);
        StmtRuns(tab, ps[0], budget);
        BlockRuns(tab, ps[1], budget - Cost(ps[0]));
      }
    }
  }

  lemma {:induction false} StmtRuns(tab: Table, t: Tree, budget: nat)
    requires Derives(tab, t) && t.goal.Effect? && budget >= Cost(t)
    ensures CtStmt(tab, t.goal.s, t.goal.env, budget) == Done((t.goal.flow, t.goal.after), budget - Cost(t))
    decreases t, 1
  {
    hide Derives, EffectRule, Cost;
    match t.goal.s
    case While(_, _) => WhileCost(t); WhileRuns(tab, t, budget - 1);
    case If(_, _, _) => IfRuns(tab, t, budget);
    case Nested(_) => NestedRuns(tab, t, budget);
    case Assign(_, _, _) => AssignRuns(tab, t, budget);
    case Let(_, _) => HeadRuns(tab, t, budget);
    case Do(_) => HeadRuns(tab, t, budget);
    case Return(_) => HeadRuns(tab, t, budget);
    case _ => LeafRuns(tab, t, budget);
  }

  lemma WhileCost(t: Tree)
    requires t.goal.Effect?
    ensures Cost(t) > 0
  {
  }

  lemma LeafRuns(tab: Table, t: Tree, budget: nat)
    requires Derives(tab, t) && t.goal.Effect? && budget >= Cost(t)
    requires var s := t.goal.s; s.ReturnUnit? || s.Break? || s.Continue? || s.Other?
    ensures CtStmt(tab, t.goal.s, t.goal.env, budget) == Done((t.goal.flow, t.goal.after), budget - Cost(t))
  {
    hide Derives, Cost, CostAll, Goals;
    Root(tab, t);
    assert |Goals(t.premises)| == |t.premises|;
  }

  lemma {:induction false} HeadRuns(tab: Table, t: Tree, budget: nat)
    requires Derives(tab, t) && t.goal.Effect? && budget >= Cost(t)
    requires var s := t.goal.s; s.Let? || s.Do? || s.Return?
    ensures CtStmt(tab, t.goal.s, t.goal.env, budget) == Done((t.goal.flow, t.goal.after), budget - Cost(t))
    decreases t, 0
  {
    hide Derives, Cost, CostAll, Goals;
    Root(tab, t);
    CostOne(t);
    ExprRuns(tab, t.premises[0], budget - 1);
  }

  lemma {:induction false} NestedRuns(tab: Table, t: Tree, budget: nat)
    requires Derives(tab, t) && t.goal.Effect? && t.goal.s.Nested? && budget >= Cost(t)
    ensures CtStmt(tab, t.goal.s, t.goal.env, budget) == Done((t.goal.flow, t.goal.after), budget - Cost(t))
    decreases t, 0
  {
    hide Derives, Cost, CostAll, Goals;
    Root(tab, t);
    CostOne(t);
    BlockRuns(tab, t.premises[0], budget - 1);
  }

  lemma {:induction false} IfRuns(tab: Table, t: Tree, budget: nat)
    requires Derives(tab, t) && t.goal.Effect? && t.goal.s.If? && budget >= Cost(t)
    ensures CtStmt(tab, t.goal.s, t.goal.env, budget) == Done((t.goal.flow, t.goal.after), budget - Cost(t))
    decreases t, 0
  {
    hide Derives, Cost, CostAll, Goals;
    Root(tab, t);
    var ps, s := t.premises, t.goal.s;
    CostTwo(t);
    ExprRuns(tab, ps[0], budget - 1);
    BlockRuns(tab, ps[1], budget - 1 - Cost(ps[0]));
    var o := CtExpr(tab, s.cond, t.goal.env, budget - 1);
    assert o == Done(ps[0].goal.v, budget - 1 - Cost(ps[0]));
    var arm := if o.value != 0 then s.thn else s.els;
    assert CtIf(tab, s.cond, s.thn, s.els, t.goal.env, budget - 1) == CtBlock(tab, arm, t.goal.env, o.left);
  }

  lemma {:induction false} AssignRuns(tab: Table, t: Tree, budget: nat)
    requires Derives(tab, t) && t.goal.Effect? && t.goal.s.Assign? && budget >= Cost(t)
    ensures CtStmt(tab, t.goal.s, t.goal.env, budget) == Done((t.goal.flow, t.goal.after), budget - Cost(t))
    decreases t, 0
  {
    hide Derives, Cost, CostAll, Goals;
    Root(tab, t);
    hide BinaryLaw, Compute;
    var p, s := t.premises[0], t.goal.s;
    CostOne(t);
    ExprRuns(tab, p, budget - 1);
    StoresStore(s.aop, s.place.name, p.goal.v, t.goal.env, t.goal.after, budget - Cost(t));
  }

  lemma StoresStore(aop: AssignOp, x: string, v: I64, env: Env, after: Env, left: nat)
    requires Stores(aop, x, v, env, after)
    ensures Store(aop, x, v, env, left) == Done((Normal, after), left)
  {
    if aop.With? {
      var n :| BinaryLaw(aop.op, Current(env, x), v, n) && after == env[x := n];
      BinaryIsLawful(aop.op, Current(env, x), v, n);
    }
  }

  lemma {:induction false} WhileRuns(tab: Table, t: Tree, budget: nat)
    requires Derives(tab, t) && t.goal.Effect? && t.goal.s.While? && budget + 1 >= Cost(t)
    ensures CtWhile(tab, t.goal.s.cond, t.goal.s.body, t.goal.env, budget) ==
            Done((t.goal.flow, t.goal.after), budget + 1 - Cost(t))
    decreases t, 0
  {
    hide Derives, Cost, CostAll, Goals;
    Root(tab, t);
    var ps := t.premises;
    if |ps| == 1 {
      CostOne(t);
      ExprRuns(tab, ps[0], budget);
    } else {
      if |ps| == 2 {
        CostTwo(t);
        ExprRuns(tab, ps[0], budget);
        BlockRuns(tab, ps[1], budget - Cost(ps[0]) - 1);
      } else {
        CostThree(t);
        WhileCost(ps[2]);
        ExprRuns(tab, ps[0], budget);
        BlockRuns(tab, ps[1], budget - Cost(ps[0]) - 1);
        WhileRuns(tab, ps[2], budget - Cost(ps[0]) - 1 - Cost(ps[1]));
      }
    }
  }

  // -------------------------------------------------------------------------- results

  /** On some budget the interpreter finds a value for a call exactly when the rules derive
      it. */
  lemma CallMeans(tab: Table, f: string, vals: seq<I64>, v: I64)
    ensures (exists budget :: var o := EvalConstFn(tab, f, vals, budget); o.Done? && o.value == v)
            <==> Derivable(tab, Result(f, vals, v))
  {
    if budget :| EvalConstFn(tab, f, vals, budget).Done? && EvalConstFn(tab, f, vals, budget).value == v {
      FnDerives(tab, f, vals, budget);
    }
    if t :| Derives(tab, t) && t.goal == Result(f, vals, v) {
      FnRuns(tab, t, Cost(t));
    }
  }

  /** Likewise for an expression, */
  lemma ExprMeans(tab: Table, e: Expr, env: Env, v: I64)
    ensures (exists budget :: var o := CtExpr(tab, e, env, budget); o.Done? && o.value == v)
            <==> Derivable(tab, Value(e, env, v))
  {
    if budget :| CtExpr(tab, e, env, budget).Done? && CtExpr(tab, e, env, budget).value == v {
      ExprDerives(tab, e, env, budget);
    }
    if t :| Derives(tab, t) && t.goal == Value(e, env, v) {
      ExprRuns(tab, t, Cost(t));
    }
  }

  /** and for a statement, with the way it is left and the values it leaves. */
  lemma StmtMeans(tab: Table, s: Stmt, env: Env, flow: Flow, after: Env)
    ensures (exists budget :: var o := CtStmt(tab, s, env, budget); o.Done? && o.value == (flow, after))
            <==> Derivable(tab, Effect(s, env, flow, after))
  {
    if budget :| CtStmt(tab, s, env, budget).Done? && CtStmt(tab, s, env, budget).value == (flow, after) {
      StmtDerives(tab, s, env, budget);
    }
    if t :| Derives(tab, t) && t.goal == Effect(s, env, flow, after) {
      StmtRuns(tab, t, Cost(t));
    }
  }
}
