/** The fragment of the typed HIR that ownership is decided on: statements over
    locals that own a heap VALUE (String, Vec, owning struct).  Scalar locals own
    nothing, so reads of them are `Lit`.  The drop annotations (`heapToFree`,
    `heapDrops`, `dropOld`) are fields of the tree, as in the compiler. */
module Hir {
  import opened Options

  type Local = nat

  datatype Expr =
    | Lit
    | Use(x: Local)                        // bare owning local, by value
    | Borrow(x: Local)                     // `&x`
    | Call(owns: bool, args: seq<Expr>)    // `owns`: the result is an owning value

  datatype Stmt =
    | Let(x: Local, init: Expr)
    | Assign(x: Local, value: Expr, dropOld: bool)
    | Do(e: Expr)
    | Return(result: Option<Expr>, heapDrops: seq<Local>)
    | If(cond: Expr, thn: Block, els: Option<Block>)
    | While(cond: Expr, body: Block)
    | Nested(b: Block)
    | Break(heapDrops: seq<Local>)
    | Continue(heapDrops: seq<Local>)

  datatype Block = Block(stmts: seq<Stmt>, heapToFree: seq<Local>)

  /** `ty_owns_heap` of the expression's type. */
  predicate Owns(e: Expr) {
    e.Use? || (e.Call? && e.owns)
  }

  /** Does the expression mention `x` at all (`expr_contains_local`)? */
  predicate Mentions(e: Expr, x: Local) {
    match e
    case Lit => false
    case Use(y) => y == x
    case Borrow(y) => y == x
    case Call(_, args) => exists i | 0 <= i < |args| :: Mentions(args[i], x)
  }

  /** Locals handed over by value to a call somewhere inside `e`. */
  function MovedIn(e: Expr): set<Local> {
    if e.Call? then MovedInArgs(e.args) else {}
  }

  function MovedInArgs(args: seq<Expr>): set<Local> {
    if |args| == 0 then {}
    else (if args[0].Use? then {args[0].x} else {}) + MovedIn(args[0]) + MovedInArgs(args[1..])
  }
}
