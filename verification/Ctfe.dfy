/** The compile-time interpreter for `constexpr` functions, with its step budget. */
module Ctfe {
  import opened Options

  const MIN64: int := -0x8000_0000_0000_0000
  const MAX64: int := 0x7fff_ffff_ffff_ffff
  type I64 = x: int | MIN64 <= x <= MAX64

  /** The 64-bit signed value with the same low 64 bits. */
  function Wrap(x: int): I64 {
    var low := x % 0x1_0000_0000_0000_0000;
    if low > MAX64 then low - 0x1_0000_0000_0000_0000 else low
  }

  function Abs(x: int): nat {
    if x < 0 then -x else x
  }

  /** Division rounding toward zero, and its remainder. */
  function Quotient(a: int, b: int): int
    requires b != 0
  {
    if (a < 0) == (b < 0) then Abs(a) / Abs(b) else -(Abs(a) / Abs(b))
  }

  function Remainder(a: int, b: int): int
    requires b != 0
  {
    if a < 0 then -(Abs(a) % Abs(b)) else Abs(a) % Abs(b)
  }

  datatype UnOp = Neg | Not | BitNot
  datatype BinOp =
    | Add | Sub | Mul | Div | Mod
    | Eq | Ne | Lt | Le | Gt | Ge
    | And | Or | BitAnd | BitOr | BitXor | Shl | Shr

  datatype Expr =
    | Lit(n: I64)                                // integer, bool or character
    | Ident(name: string)
    | Un(uop: UnOp, e: Expr)
    | Bin(op: BinOp, l: Expr, r: Expr)
    | Call(callee: Expr, args: seq<Expr>)
    | Unsupported

  datatype AssignOp = Plain | With(op: BinOp)    // `=`, `+=`, `-=`, `*=`, `/=`, `%=`

  datatype Stmt =
    | Let(name: string, init: Expr)
    | Assign(aop: AssignOp, place: Expr, value: Expr)
    | Do(e: Expr)
    | Return(result: Expr)
    | ReturnUnit
    | If(cond: Expr, thn: seq<Stmt>, els: seq<Stmt>)
    | While(cond: Expr, body: seq<Stmt>)
    | Nested(b: seq<Stmt>)
    | Break
    | Continue
    | Other

  datatype ConstFn = ConstFn(params: seq<string>, body: seq<Stmt>)
  /** What is known at compile time; `checked`: the compiler itself was built with checks
      for arithmetic overflow. */
  datatype Table = Table(fns: map<string, ConstFn>, consts: map<string, I64>, checked: bool)

  type Env = map<string, I64>

  /** `Crash`: the division overflows, which aborts the compiler.  `Fails`: no value.
      `Done`: a value, and what is left of the budget. */
  datatype Outcome<T> = Crash | Fails | Done(value: T, left: nat)

  datatype Flow = Normal | Broke | Continued | Returned(v: I64)

  // ----------------------------------------------------------------------- operators

  function Truth(b: bool): I64 {
    if b then 1 else 0
  }

  function Unary(op: UnOp, v: I64): I64 {
    match op
    case Neg => Wrap(0 - v as int)
    case Not => Truth(v == 0)
    case BitNot => -1 - v
  }

  function OneBit(op: BinOp, a: bool, b: bool): nat {
    if op == BitAnd then (if a && b then 1 else 0)
    else if op == BitOr then (if a || b then 1 else 0)
    else (if a != b then 1 else 0)
  }

  /** The lowest `n` bits of two numbers in two's complement, combined one by one. */
  function Bitwise(op: BinOp, l: int, r: int, n: nat): nat
    decreases n
  {
    if n == 0 then 0 else OneBit(op, l % 2 == 1, r % 2 == 1) + 2 * Bitwise(op, l / 2, r / 2, n - 1)
  }

  datatype Computed = Overflow | Undefined | Computed(n: I64)

  /** An operator on two numbers; `&&` and `||` are decided elsewhere. */
  function Compute(op: BinOp, l: I64, r: I64): Computed {
    match op
    case Add => Computed(Wrap(l + r))
    case Sub => Computed(Wrap(l - r))
    case Mul => Computed(Wrap(l * r))
    case Div => if r == 0 then Undefined else if l == MIN64 && r == -1 then Overflow else Computed(Wrap(Quotient(l, r)))
    case Mod => if r == 0 then Undefined else if l == MIN64 && r == -1 then Overflow else Computed(Wrap(Remainder(l, r)))
    case Eq => Computed(Truth(l == r))
    case Ne => Computed(Truth(l != r))
    case Lt => Computed(Truth(l < r))
    case Le => Computed(Truth(l <= r))
    case Gt => Computed(Truth(l > r))
    case Ge => Computed(Truth(l >= r))
    case BitAnd => Computed(Wrap(Bitwise(op, l, r, 64)))
    case BitOr => Computed(Wrap(Bitwise(op, l, r, 64)))
    case BitXor => Computed(Wrap(Bitwise(op, l, r, 64)))
    case Shl => Computed(Wrap(l * PowerPos(r % 64)))
    case Shr => Computed(Wrap(l / PowerPos(r % 64)))
    case _ => Undefined
  }

  function Binary(op: BinOp, l: I64, r: I64, left: nat): (o: Outcome<I64>)
    ensures o.Done? ==> o.left == left
  {
    match Compute(op, l, r)
    case Overflow => Crash
    case Undefined => Fails
    case Computed(n) => Done(n, left)
  }

  function PowerPos(n: nat): (p: nat)
    ensures p > 0
  {
    if n == 0 then 1 else 2 * PowerPos(n - 1)
  }

  // --------------------------------------------------------------------- evaluation

  function CtExpr(tab: Table, e: Expr, env: Env, budget: nat): (o: Outcome<I64>)
    ensures o.Done? ==> o.left < budget
    decreases 2 * budget, e, 0
  {
    if budget == 0 then Fails
    else
      match e
      case Lit(n) => Done(n, budget - 1)
      case Ident(n) =>
        if n in env then Done(env[n], budget - 1)
        else if n in tab.consts then Done(tab.consts[n], budget - 1)
        else Fails
      case Un(op, x) =>
        (match CtExpr(tab, x, env, budget - 1)
         case Crash => Crash
         case Fails => Fails
         case Done(v, left) => Done(Unary(op, v), left))
      case Bin(op, l, r) => CtBin(tab, op, l, r, env, budget - 1)
      case Call(callee, args) =>
        if !callee.Ident? then Fails
        else
          (match CtArgs(tab, args, env, budget - 1)
           case Crash => Crash
           case Fails => Fails
           case Done(vals, left) => EvalConstFn(tab, callee.name, vals, left))
      case Unsupported => Fails
  }

  function CtBin(tab: Table, op: BinOp, l: Expr, r: Expr, env: Env, budget: nat): (o: Outcome<I64>)
    ensures o.Done? ==> o.left <= budget
    decreases 2 * budget + 1, l
  {
    match CtExpr(tab, l, env, budget)
    case Crash => Crash
    case Fails => Fails
    case Done(a, left) => CtRight(tab, op, a, r, env, left)
  }

  /** The right operand, unless the left one decides, and the operator. */
  function CtRight(tab: Table, op: BinOp, a: I64, r: Expr, env: Env, budget: nat): (o: Outcome<I64>)
    ensures o.Done? ==> o.left <= budget
    decreases 2 * budget + 1, r
  {
    if op == And && a == 0 then Done(0, budget)
    else if op == Or && a != 0 then Done(1, budget)
    else match CtExpr(tab, r, env, budget)
      case Crash => Crash
      case Fails => Fails
      case Done(b, left) => if op == And || op == Or then Done(Truth(b != 0), left) else Binary(op, a, b, left)
  }

  function CtArgs(tab: Table, args: seq<Expr>, env: Env, budget: nat): (o: Outcome<seq<I64>>)
    ensures o.Done? ==> o.left <= budget
    decreases 2 * budget, args, 0
  {
    if |args| == 0 then Done([], budget)
    else match CtExpr(tab, args[0], env, budget)
      case Crash => Crash
      case Fails => Fails
      case Done(v, left) => Cons(v, CtArgs(tab, args[1..], env, left))
  }

  function Cons(v: I64, o: Outcome<seq<I64>>): Outcome<seq<I64>> {
    match o
    case Done(vs, left) => Done([v] + vs, left)
    case stop => stop
  }

  function Bind(params: seq<string>, vals: seq<I64>): Env
    requires |params| == |vals|
  {
    if |params| == 0 then map[]
    else Bind(params[..|params| - 1], vals[..|params| - 1])[params[|params| - 1] := vals[|params| - 1]]
  }

  function EvalConstFn(tab: Table, name: string, vals: seq<I64>, budget: nat): (o: Outcome<I64>)
    ensures o.Done? ==> o.left <= budget
    decreases 2 * budget + 1
  {
    if name !in tab.fns || |tab.fns[name].params| != |vals| then Fails
    else match CtBlock(tab, tab.fns[name].body, Bind(tab.fns[name].params, vals), budget)
      case Crash => Crash
      case Fails => Fails
      case Done((Returned(v), _), left) => Done(v, left)
      case Done((Normal, _), left) => Done(0, left)
      case Done(_, _) => Fails
  }

  function CtBlock(tab: Table, b: seq<Stmt>, env: Env, budget: nat): (o: Outcome<(Flow, Env)>)
    ensures o.Done? ==> o.left <= budget
    decreases 2 * budget, b, 1
  {
    if |b| == 0 then Done((Normal, env), budget)
    else match CtStmt(tab, b[0], env, budget)
      case Done((Normal, next), left) => CtBlock(tab, b[1..], next, left)
      case stop => stop
  }

  function CtStmt(tab: Table, s: Stmt, env: Env, budget: nat): (o: Outcome<(Flow, Env)>)
    ensures o.Done? ==> o.left < budget
    decreases 2 * budget, s, 0
  {
    if budget == 0 then Fails
    else CtSimple(tab, s, env, budget - 1)
  }

  function CtSimple(tab: Table, s: Stmt, env: Env, budget: nat): (o: Outcome<(Flow, Env)>)
    ensures o.Done? ==> o.left <= budget
    decreases 2 * budget, s, 1
  {
    match s
    case Let(name, init) =>
      (match CtExpr(tab, init, env, budget)
       case Crash => Crash
       case Fails => Fails
       case Done(v, left) => Done((Normal, env[name := v]), left))
    case Assign(aop, place, value) =>
      if !place.Ident? then Fails
      else
        (match CtExpr(tab, value, env, budget)
         case Crash => Crash
         case Fails => Fails
         case Done(v, left) => Store(aop, place.name, v, env, left))
    case Do(e) =>
      (match CtExpr(tab, e, env, budget)
       case Crash => Crash
       case Fails => Fails
       case Done(_, left) => Done((Normal, env), left))
    case Return(e) =>
      (match CtExpr(tab, e, env, budget)
       case Crash => Crash
       case Fails => Fails
       case Done(v, left) => Done((Returned(v), env), left))
    case ReturnUnit => Done((Returned(0), env), budget)
    case If(cond, thn, els) => CtIf(tab, cond, thn, els, env, budget)
    case While(cond, body) => CtWhile(tab, cond, body, env, budget)
    case Nested(b) => CtBlock(tab, b, env, budget)
    case Break => Done((Broke, env), budget)
    case Continue => Done((Continued, env), budget)
    case Other => Fails
  }

  function CtIf(tab: Table, cond: Expr, thn: seq<Stmt>, els: seq<Stmt>, env: Env, budget: nat): (o: Outcome<(Flow, Env)>)
    ensures o.Done? ==> o.left <= budget
    decreases 2 * budget, cond, 2
  {
    match CtExpr(tab, cond, env, budget)
    case Crash => Crash
    case Fails => Fails
    case Done(v, left) => CtBlock(tab, if v != 0 then thn else els, env, left)
  }

  function Store(aop: AssignOp, name: string, v: I64, env: Env, left: nat): (o: Outcome<(Flow, Env)>)
    ensures o.Done? ==> o.left == left
  {
    if aop.Plain? then Done((Normal, env[name := v]), left)
    else if aop.op !in {Add, Sub, Mul, Div, Mod} then Fails
    else match Binary(aop.op, if name in env then env[name] else 0, v, left)
      case Crash => Crash
      case Fails => Fails
      case Done(n, _) => Done((Normal, env[name := n]), left)
  }

  function CtWhile(tab: Table, cond: Expr, body: seq<Stmt>, env: Env, budget: nat): (o: Outcome<(Flow, Env)>)
    ensures o.Done? ==> o.left <= budget
    decreases 2 * budget, cond, 2
  {
    match CtExpr(tab, cond, env, budget)
    case Crash => Crash
    case Fails => Fails
    case Done(v, left) =>
      if v == 0 then Done((Normal, env), left)
      else if left == 0 then Fails
      else CtRound(tab, cond, body, env, left - 1)
  }

  /** The body once, and the loop again. */
  function CtRound(tab: Table, cond: Expr, body: seq<Stmt>, env: Env, budget: nat): (o: Outcome<(Flow, Env)>)
    ensures o.Done? ==> o.left <= budget
    decreases 2 * budget + 1, cond
  {
    match CtBlock(tab, body, env, budget)
    case Crash => Crash
    case Fails => Fails
    case Done((flow, next), left) =>
      if flow == Normal || flow == Continued then CtWhile(tab, cond, body, next, left)
      else Done((if flow == Broke then Normal else flow, next), left)
  }
}
