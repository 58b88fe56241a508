/** The step budget only ever stops an evaluation: it never changes what one yields. */
module CtfeBudget {
  import opened Options
  import opened Ctfe

  /** Budget `c` covers the steps that `o` took from budget `b`. */
  predicate Covers<T>(o: Outcome<T>, b: nat, c: nat) {
    match o
    case Done(_, left) => left <= b && b - left <= c
    case Crash => b <= c
    case Fails => false
  }

  /** `q`, from budget `c`, is `o` from budget `b`: the same value after the same number
      of steps. */
  predicate Same<T(==)>(o: Outcome<T>, b: nat, q: Outcome<T>, c: nat) {
    match o
    case Done(v, left) => q.Done? && q.value == v && q.left - left == c - b
    case Crash => q.Crash?
    case Fails => true
  }

  lemma {:induction false} ExprSame(tab: Table, e: Expr, env: Env, b: nat, c: nat)
    requires Covers(CtExpr(tab, e, env, b), b, c)
    ensures Same(CtExpr(tab, e, env, b), b, CtExpr(tab, e, env, c), c)
    decreases 2 * b, e, 0
  {
    assert b > 0 && c > 0;
    match e
    case Un(_, x) => ExprSame(tab, x, env, b - 1, c - 1);
    case Bin(op, l, r) => BinSame(tab, op, l, r, env, b - 1, c - 1);
    case Call(callee, args) =>
      ArgsSame(tab, args, env, b - 1, c - 1);
      var vals := CtArgs(tab, args, env, b - 1);
      if vals.Done? {
        EvalSame(tab, callee.name, vals.value, vals.left, CtArgs(tab, args, env, c - 1).left);
      }
    case _ =>
  }

  lemma {:induction false} BinSame(tab: Table, op: BinOp, l: Expr, r: Expr, env: Env, b: nat, c: nat)
    requires Covers(CtBin(tab, op, l, r, env, b), b, c)
    ensures Same(CtBin(tab, op, l, r, env, b), b, CtBin(tab, op, l, r, env, c), c)
    decreases 2 * b + 1, l
  {
    ExprSame(tab, l, env, b, c);
    var x := CtExpr(tab, l, env, b);
    if x.Done? { RightSame(tab, op, x.value, r, env, x.left, CtExpr(tab, l, env, c).left); }
  }

  lemma {:induction false} RightSame(tab: Table, op: BinOp, a: I64, r: Expr, env: Env, b: nat, c: nat)
    requires Covers(CtRight(tab, op, a, r, env, b), b, c)
    ensures Same(CtRight(tab, op, a, r, env, b), b, CtRight(tab, op, a, r, env, c), c)
    decreases 2 * b + 1, r
  {
    hide CtExpr, Binary, Compute;
    if !(op == And && a == 0) && !(op == Or && a != 0) {
      ExprSame(tab, r, env, b, c);
      var x, y := CtExpr(tab, r, env, b), CtExpr(tab, r, env, c);
      if x.Done? && op != And && op != Or { BinarySame(op, a, x.value, x.left, y.left); }
    }
  }

  lemma BinarySame(op: BinOp, l: I64, r: I64, b: nat, c: nat)
    ensures Same(Binary(op, l, r, b), b, Binary(op, l, r, c), c)
    ensures Binary(op, l, r, b).Done? <==> Binary(op, l, r, c).Done?
  {
  }

  lemma {:induction false} ArgsSame(tab: Table, args: seq<Expr>, env: Env, b: nat, c: nat)
    requires Covers(CtArgs(tab, args, env, b), b, c)
    ensures Same(CtArgs(tab, args, env, b), b, CtArgs(tab, args, env, c), c)
    decreases 2 * b, args, 0
  {
    if |args| > 0 {
      ExprSame(tab, args[0], env, b, c);
      var x, y := CtExpr(tab, args[0], env, b), CtExpr(tab, args[0], env, c);
      if x.Done? {
        ArgsSame(tab, args[1..], env, x.left, y.left);
        ConsSame(x.value, CtArgs(tab, args[1..], env, x.left), x.left, CtArgs(tab, args[1..], env, y.left), y.left);
      }
    }
  }

  lemma ConsSame(v: I64, o: Outcome<seq<I64>>, b: nat, q: Outcome<seq<I64>>, c: nat)
    requires Same(o, b, q, c)
    ensures Same(Cons(v, o), b, Cons(v, q), c)
  {
  }

  lemma {:induction false} EvalSame(tab: Table, name: string, vals: seq<I64>, b: nat, c: nat)
    requires Covers(EvalConstFn(tab, name, vals, b), b, c)
    ensures Same(EvalConstFn(tab, name, vals, b), b, EvalConstFn(tab, name, vals, c), c)
    decreases 2 * b + 1
  {
    var f := tab.fns[name];
    BlockSame(tab, f.body, Bind(f.params, vals), b, c);
  }

  lemma {:induction false} BlockSame(tab: Table, ss: seq<Stmt>, env: Env, b: nat, c: nat)
    requires Covers(CtBlock(tab, ss, env, b), b, c)
    ensures Same(CtBlock(tab, ss, env, b), b, CtBlock(tab, ss, env, c), c)
    decreases 2 * b, ss, 1
  {
    if |ss| > 0 {
      StmtSame(tab, ss[0], env, b, c);
      var o, q := CtStmt(tab, ss[0], env, b), CtStmt(tab, ss[0], env, c);
      if o.Done? && o.value.0 == Normal { BlockSame(tab, ss[1..], o.value.1, o.left, q.left); }
    }
  }

  lemma {:induction false} StmtSame(tab: Table, s: Stmt, env: Env, b: nat, c: nat)
    requires Covers(CtStmt(tab, s, env, b), b, c)
    ensures Same(CtStmt(tab, s, env, b), b, CtStmt(tab, s, env, c), c)
    decreases 2 * b, s, 0
  {
    assert b > 0 && c > 0;
    SimpleSame(tab, s, env, b - 1, c - 1);
  }

  lemma {:induction false} SimpleSame(tab: Table, s: Stmt, env: Env, b: nat, c: nat)
    requires Covers(CtSimple(tab, s, env, b), b, c)
    ensures Same(CtSimple(tab, s, env, b), b, CtSimple(tab, s, env, c), c)
    decreases 2 * b, s, 1
  {
    match s
    case Let(_, init) => ExprSame(tab, init, env, b, c);
    case Assign(aop, place, value) =>
      ExprSame(tab, value, env, b, c);
      var v := CtExpr(tab, value, env, b);
      if v.Done? { StoreSame(aop, place.name, v.value, env, v.left, CtExpr(tab, value, env, c).left); }
    case Do(e) => ExprSame(tab, e, env, b, c);
    case Return(e) => ExprSame(tab, e, env, b, c);
    case If(cond, thn, els) => IfSame(tab, cond, thn, els, env, b, c);
    case While(cond, body) => WhileSame(tab, cond, body, env, b, c);
    case Nested(ss) => BlockSame(tab, ss, env, b, c);
    case _ =>
  }

  lemma StoreSame(aop: AssignOp, name: string, v: I64, env: Env, b: nat, c: nat)
    ensures Same(Store(aop, name, v, env, b), b, Store(aop, name, v, env, c), c)
    ensures Store(aop, name, v, env, b).Done? <==> Store(aop, name, v, env, c).Done?
  {
  }

  lemma {:induction false} IfSame(tab: Table, cond: Expr, thn: seq<Stmt>, els: seq<Stmt>, env: Env, b: nat, c: nat)
    requires Covers(CtIf(tab, cond, thn, els, env, b), b, c)
    ensures Same(CtIf(tab, cond, thn, els, env, b), b, CtIf(tab, cond, thn, els, env, c), c)
    decreases 2 * b, cond, 2
  {
    ExprSame(tab, cond, env, b, c);
    var v := CtExpr(tab, cond, env, b);
    if v.Done? { BlockSame(tab, if v.value != 0 then thn else els, env, v.left, CtExpr(tab, cond, env, c).left); }
  }

  lemma {:induction false} WhileSame(tab: Table, cond: Expr, body: seq<Stmt>, env: Env, b: nat, c: nat)
    requires Covers(CtWhile(tab, cond, body, env, b), b, c)
    ensures Same(CtWhile(tab, cond, body, env, b), b, CtWhile(tab, cond, body, env, c), c)
    decreases 2 * b, cond, 2
  {
    hide CtExpr;
    ExprSame(tab, cond, env, b, c);
    var v, w := CtExpr(tab, cond, env, b), CtExpr(tab, cond, env, c);
    if v.Done? && v.value != 0 { RoundSame(tab, cond, body, env, v.left - 1, w.left - 1); }
  }

  lemma {:induction false} RoundSame(tab: Table, cond: Expr, body: seq<Stmt>, env: Env, b: nat, c: nat)
    requires Covers(CtRound(tab, cond, body, env, b), b, c)
    ensures Same(CtRound(tab, cond, body, env, b), b, CtRound(tab, cond, body, env, c), c)
    decreases 2 * b + 1, cond
  {
    BlockSame(tab, body, env, b, c);
    var o, q := CtBlock(tab, body, env, b), CtBlock(tab, body, env, c);
    if o.Done? && (o.value.0 == Normal || o.value.0 == Continued) {
      WhileSame(tab, cond, body, o.value.1, o.left, q.left);
    }
  }

  /** A call that yields a value in `k` steps yields it in `k` steps from every budget of
      at least `k`, and yields nothing from a smaller one. */
  lemma BudgetExact(tab: Table, name: string, vals: seq<I64>, b: nat, c: nat)
    requires EvalConstFn(tab, name, vals, b).Done?
    ensures var o := EvalConstFn(tab, name, vals, b);
            var steps := b - o.left;
            && (c >= steps ==> EvalConstFn(tab, name, vals, c) == Done(o.value, c - steps))
            && (c < steps ==> !EvalConstFn(tab, name, vals, c).Done?)
  {
    var o := EvalConstFn(tab, name, vals, b);
    if c >= b - o.left {
      EvalSame(tab, name, vals, b, c);
    } else if EvalConstFn(tab, name, vals, c).Done? {
      EvalSame(tab, name, vals, c, b);
    }
  }
}
