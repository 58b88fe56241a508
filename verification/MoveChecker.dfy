/** The use-after-move check on owning values.  `Look` is the checker's move state
    plus the number of diagnostics it has kept so far. */
module MoveChecker {
  import opened Options
  import opened Hir

  datatype Look = Look(moved: set<Local>, errors: nat)

  function ReadOf(k: Look, x: Local): Look {
    if x in k.moved then k.(errors := k.errors + 1) else k
  }

  /** `mark_moved`: a second move is an error, a first one poisons the local. */
  function MarkMoved(k: Look, x: Local): Look {
    if x in k.moved then k.(errors := k.errors + 1) else k.(moved := k.moved + {x})
  }

  function MarkOwningMove(k: Look, e: Expr): Look {
    if e.Use? then MarkMoved(k, e.x) else k
  }

  function WalkExpr(e: Expr, k: Look): Look
    decreases e
  {
    match e
    case Lit => k
    case Use(x) => ReadOf(k, x)
    case Borrow(x) => ReadOf(k, x)
    case Call(_, args) => WalkArgs(args, k)
  }

  function WalkArgs(args: seq<Expr>, k: Look): Look
    decreases args
  {
    if |args| == 0 then k
    else WalkArgs(args[1..], MarkOwningMove(WalkExpr(args[0], k), args[0]))
  }

  /** Does the last statement certainly leave the block? */
  predicate AlwaysExits(b: Block) {
    |b.stmts| > 0 &&
    match b.stmts[|b.stmts| - 1]
    case Return(_, _) => true
    case Break(_) => true
    case Continue(_) => true
    case If(_, thn, els) => els.Some? && AlwaysExits(thn) && AlwaysExits(els.value)
    case Nested(inner) => AlwaysExits(inner)
    case _ => false
  }

  /** The state after an `if`: an arm that always exits does not count; otherwise a
      value moved on either arm is moved. */
  function AfterIf(thenExits: bool, elseExits: bool, t: set<Local>, e: set<Local>): set<Local> {
    if thenExits then e else if elseExits then t else t + e
  }

  function WalkStmt(s: Stmt, k: Look): Look
    decreases s
  {
    match s
    case Let(x, e) =>
      var now := WalkExpr(e, k);
      MarkOwningMove(now.(moved := now.moved - {x}), e)
    case Assign(x, e, _) =>
      var now := MarkOwningMove(WalkExpr(e, k), e);
      now.(moved := now.moved - {x})
    case Do(e) => WalkExpr(e, k)
    case Return(v, _) => if v.Some? then WalkExpr(v.value, k) else k
    case If(c, thn, els) =>
      var snap := WalkExpr(c, k);
      var t := WalkBlock(thn, snap);
      var e := if els.Some? then WalkBlock(els.value, Look(snap.moved, t.errors)) else Look(snap.moved, t.errors);
      Look(AfterIf(AlwaysExits(thn), els.Some? && AlwaysExits(els.value), t.moved, e.moved), e.errors)
    case While(c, body) => WalkLoop(body, WalkExpr(c, k))
    case Nested(b) => WalkBlock(b, k)
    case Break(_) => k
    case Continue(_) => k
  }

  function WalkStmts(ss: seq<Stmt>, k: Look): Look
    decreases ss
  {
    if |ss| == 0 then k else WalkStmts(ss[1..], WalkStmt(ss[0], k))
  }

  function WalkBlock(b: Block, k: Look): Look
    decreases b, 0
  {
    WalkStmts(b.stmts, k)
  }

  /** A loop body is walked once; if that moved anything new, the moves are folded
      into the entry state, the diagnostics discarded and the body walked again. */
  function WalkLoop(body: Block, k: Look): Look
    decreases body, 1
  {
    var first := WalkBlock(body, k);
    if first.moved <= k.moved then first
    else WalkBlock(body, Look(k.moved + first.moved, k.errors))
  }

  predicate Accepts(body: Block) {
    WalkBlock(body, Look({}, 0)).errors == 0
  }

  /** The checker as the compiler runs it. */
  class Checker {
    var moved: set<Local>
    var errors: nat

    constructor ()
      ensures Seen() == Look({}, 0)
    {
      moved, errors := {}, 0;
    }

    function Seen(): Look
      reads this
    {
      Look(moved, errors)
    }

    method Read(x: Local)
      modifies this
      ensures Seen() == ReadOf(old(Seen()), x)
    {
      if x in moved { errors := errors + 1; }
    }

    method Move(x: Local)
      modifies this
      ensures Seen() == MarkMoved(old(Seen()), x)
    {
      if x in moved {
        errors := errors + 1;
      } else {
        moved := moved + {x};
      }
    }

    method OwningMove(e: Expr)
      modifies this
      ensures Seen() == MarkOwningMove(old(Seen()), e)
    {
      if e.Use? { Move(e.x); }
    }

    method VisitExpr(e: Expr)
      modifies this
      ensures Seen() == WalkExpr(e, old(Seen()))
      decreases e
    {
      match e
      case Lit =>
      case Use(x) => Read(x);
      case Borrow(x) => Read(x);
      case Call(_, args) =>
        for i := 0 to |args|
          invariant WalkArgs(args[i..], Seen()) == WalkArgs(args, old(Seen()))
        {
          assert args[i..][1..] == args[i + 1..];
          VisitExpr(args[i]);
          OwningMove(args[i]);
        }
    }

    method VisitStmt(s: Stmt)
      modifies this
      ensures Seen() == WalkStmt(s, old(Seen()))
      decreases s
    {
      match s
      case Let(x, e) =>
        VisitExpr(e);
        moved := moved - {x};
        OwningMove(e);
      case Assign(x, e, _) =>
        VisitExpr(e);
        OwningMove(e);
        moved := moved - {x};
      case Do(e) => VisitExpr(e);
      case Return(v, _) =>
        if v.Some? { VisitExpr(v.value); }
      case If(c, thn, els) =>
        VisitExpr(c);
        var snapshot := moved;
        VisitBlock(thn);
        var thenMoved := moved;
        moved := snapshot;
        if els.Some? { VisitBlock(els.value); }
        var thenExits, elseExits := AlwaysExits(thn), els.Some? && AlwaysExits(els.value);
        if elseExits && !thenExits {
          moved := thenMoved;
        } else if !thenExits {
          moved := thenMoved + moved;
        }
      case While(c, body) =>
        VisitExpr(c);
        VisitLoop(body);
      case Nested(b) => VisitBlock(b);
      case Break(_) =>
      case Continue(_) =>
    }

    method VisitBlock(b: Block)
      modifies this
      ensures Seen() == WalkBlock(b, old(Seen()))
      decreases b, 0
    {
      for i := 0 to |b.stmts|
        invariant WalkStmts(b.stmts[i..], Seen()) == WalkBlock(b, old(Seen()))
      {
        assert b.stmts[i..][1..] == b.stmts[i + 1..];
        VisitStmt(b.stmts[i]);
      }
    }

    method VisitLoop(body: Block)
      modifies this
      ensures Seen() == WalkLoop(body, old(Seen()))
      decreases body, 1
    {
      var pre, mark := moved, errors;
      VisitBlock(body);
      if !(moved <= pre) {
        errors := mark;
        moved := pre + moved;
        VisitBlock(body);
      }
    }
  }
}
