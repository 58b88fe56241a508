/** Why two walks of a loop body are enough for moves.  Whatever a body contains, it
    treats each local in one of three ways, so the state folded after the first walk
    is final, and the second walk complains exactly when some iteration would. */
module LoopMoves {
  import opened Options
  import opened Hir
  import opened MoveChecker
  import opened Containment

  /** What a piece of code does to the `moved` bit of one local. */
  datatype Effect = Keeps | Moves | Revives

  function Apply(e: Effect, moved: bool): bool {
    match e case Keeps => moved case Moves => true case Revives => false
  }

  function Then(first: Effect, second: Effect): Effect {
    if second.Keeps? then first else second
  }

  function Either(a: Effect, b: Effect): Effect {
    if a.Moves? || b.Moves? then Moves else if a == b then a else Keeps
  }

  function ExprEffect(e: Expr, x: Local): Effect {
    if x in MovedIn(e) then Moves else Keeps
  }

  function StmtEffect(s: Stmt, x: Local): Effect
    decreases s
  {
    match s
    case Let(y, e) =>
      if e == Use(x) then Moves else if x == y then Revives else ExprEffect(e, x)
    case Assign(y, e, _) =>
      if x == y then Revives else if e == Use(x) then Moves else ExprEffect(e, x)
    case Do(e) => ExprEffect(e, x)
    case Return(v, _) => if v.Some? then ExprEffect(v.value, x) else Keeps
    case If(c, thn, els) =>
      var t := BlockEffect(thn, x);
      var e := if els.Some? then BlockEffect(els.value, x) else Keeps;
      Then(ExprEffect(c, x),
           if AlwaysExits(thn) then e
           else if els.Some? && AlwaysExits(els.value) then t
           else Either(t, e))
    case While(c, body) => Then(ExprEffect(c, x), BlockEffect(body, x))
    case Nested(b) => BlockEffect(b, x)
    case Break(_) => Keeps
    case Continue(_) => Keeps
  }

  function StmtsEffect(ss: seq<Stmt>, x: Local): Effect
    decreases ss
  {
    if |ss| == 0 then Keeps else Then(StmtEffect(ss[0], x), StmtsEffect(ss[1..], x))
  }

  function BlockEffect(b: Block, x: Local): Effect
    decreases b, 0
  {
    StmtsEffect(b.stmts, x)
  }

  // --------------------------------------------------- constant or identity, per local

  lemma {:induction false} StmtTransfer(s: Stmt, k: Look, x: Local)
    ensures x in WalkStmt(s, k).moved <==> Apply(StmtEffect(s, x), x in k.moved)
    decreases s
  {
    match s
    case Let(_, e) => WalkExprMoves(e, k);
    case Assign(_, e, _) => WalkExprMoves(e, k);
    case Do(e) => WalkExprMoves(e, k);
    case Return(v, _) => if v.Some? { WalkExprMoves(v.value, k); }
    case If(c, thn, els) =>
      var snap := WalkExpr(c, k);
      WalkExprMoves(c, k);
      BlockTransfer(thn, snap, x);
      if els.Some? { BlockTransfer(els.value, Look(snap.moved, WalkBlock(thn, snap).errors), x); }
    case While(c, body) =>
      WalkExprMoves(c, k);
      LoopTransfer(body, WalkExpr(c, k), x);
    case Nested(b) => BlockTransfer(b, k, x);
    case Break(_) =>
    case Continue(_) =>
  }

  lemma {:induction false} StmtsTransfer(ss: seq<Stmt>, k: Look, x: Local)
    ensures x in WalkStmts(ss, k).moved <==> Apply(StmtsEffect(ss, x), x in k.moved)
    decreases ss
  {
    if |ss| > 0 {
      StmtTransfer(ss[0], k, x);
      StmtsTransfer(ss[1..], WalkStmt(ss[0], k), x);
    }
  }

  lemma {:induction false} BlockTransfer(b: Block, k: Look, x: Local)
    ensures x in WalkBlock(b, k).moved <==> Apply(BlockEffect(b, x), x in k.moved)
    decreases b, 0
  {
    StmtsTransfer(b.stmts, k, x);
  }

  /** Walking a loop leaves the state one walk of its body leaves. */
  lemma {:induction false} LoopTransfer(body: Block, k: Look, x: Local)
    ensures x in WalkLoop(body, k).moved <==> Apply(BlockEffect(body, x), x in k.moved)
    decreases body, 1
  {
    var first := WalkBlock(body, k);
    BlockTransfer(body, k, x);
    BlockTransfer(body, Look(k.moved + first.moved, k.errors), x);
  }

  // ------------------------------------------------------------- the folded state

  /** Entry state of the second walk. */
  function Folded(body: Block, k: Look): Look {
    Look(k.moved + WalkBlock(body, k).moved, k.errors)
  }

  lemma WalkOfUnion(b: Block, m: set<Local>, n: set<Local>, errors: nat)
    ensures WalkBlock(b, Look(m + n, errors)).moved ==
            WalkBlock(b, Look(m, errors)).moved + WalkBlock(b, Look(n, errors)).moved
  {
    forall x
      ensures x in WalkBlock(b, Look(m + n, errors)).moved <==>
              x in WalkBlock(b, Look(m, errors)).moved + WalkBlock(b, Look(n, errors)).moved
    {
      BlockTransfer(b, Look(m + n, errors), x);
      BlockTransfer(b, Look(m, errors), x);
      BlockTransfer(b, Look(n, errors), x);
    }
  }

  /** Walking the body from the folded state adds nothing to it; and from the second
      iteration on, every iteration starts from the same state. */
  lemma FoldedIsFixpoint(body: Block, k: Look)
    ensures WalkBlock(body, Folded(body, k)).moved <= Folded(body, k).moved
    ensures WalkBlock(body, Folded(body, k)).moved == WalkBlock(body, k).moved
    ensures WalkBlock(body, WalkBlock(body, k)).moved == WalkBlock(body, k).moved
  {
    forall x
      ensures x in WalkBlock(body, Folded(body, k)).moved <==> x in WalkBlock(body, k).moved
      ensures x in WalkBlock(body, WalkBlock(body, k)).moved <==> x in WalkBlock(body, k).moved
    {
      BlockTransfer(body, k, x);
      BlockTransfer(body, Folded(body, k), x);
      BlockTransfer(body, WalkBlock(body, k), x);
    }
  }

  // ------------------------------------------------------------------ diagnostics

  predicate QuietExpr(e: Expr, m: set<Local>) { WalkExpr(e, Look(m, 0)).errors == 0 }
  predicate QuietArgs(args: seq<Expr>, m: set<Local>) { WalkArgs(args, Look(m, 0)).errors == 0 }
  predicate QuietStmt(s: Stmt, m: set<Local>) { WalkStmt(s, Look(m, 0)).errors == 0 }
  predicate QuietStmts(ss: seq<Stmt>, m: set<Local>) { WalkStmts(ss, Look(m, 0)).errors == 0 }
  predicate QuietBlock(b: Block, m: set<Local>) { WalkBlock(b, Look(m, 0)).errors == 0 }
  predicate QuietLoop(body: Block, m: set<Local>) { WalkLoop(body, Look(m, 0)).errors == 0 }

  /** The number of diagnostics already there does not matter to what is added. */
  lemma {:induction false} ExprFrom(e: Expr, k: Look)
    ensures WalkExpr(e, k).errors == k.errors + WalkExpr(e, Look(k.moved, 0)).errors
    decreases e
  {
    if e.Call? { ArgsFrom(e.args, k); }
  }

  lemma {:induction false} ArgsFrom(args: seq<Expr>, k: Look)
    ensures WalkArgs(args, k).errors == k.errors + WalkArgs(args, Look(k.moved, 0)).errors
    decreases args
  {
    if |args| > 0 {
      var z := Look(k.moved, 0);
      ExprFrom(args[0], k);
      WalkExprMoves(args[0], k);
      WalkExprMoves(args[0], z);
      ArgsFrom(args[1..], MarkOwningMove(WalkExpr(args[0], k), args[0]));
      ArgsFrom(args[1..], MarkOwningMove(WalkExpr(args[0], z), args[0]));
    }
  }

  lemma {:induction false} StmtFrom(s: Stmt, k: Look)
    ensures WalkStmt(s, k) ==
            Look(WalkStmt(s, Look(k.moved, 0)).moved, k.errors + WalkStmt(s, Look(k.moved, 0)).errors)
    decreases s
  {
    var z := Look(k.moved, 0);
    match s
    case Let(_, e) => ExprFrom(e, k); WalkExprMoves(e, k); WalkExprMoves(e, z);
    case Assign(_, e, _) => ExprFrom(e, k); WalkExprMoves(e, k); WalkExprMoves(e, z);
    case Do(e) => ExprFrom(e, k); WalkExprMoves(e, k); WalkExprMoves(e, z);
    case Return(v, _) =>
      if v.Some? { ExprFrom(v.value, k); WalkExprMoves(v.value, k); WalkExprMoves(v.value, z); }
    case If(c, thn, els) =>
      ExprFrom(c, k);
      WalkExprMoves(c, k);
      WalkExprMoves(c, z);
      var snap, zap := WalkExpr(c, k), WalkExpr(c, z);
      BlockFrom(thn, snap);
      BlockFrom(thn, zap);
      if els.Some? {
        BlockFrom(els.value, Look(snap.moved, WalkBlock(thn, snap).errors));
        BlockFrom(els.value, Look(zap.moved, WalkBlock(thn, zap).errors));
      }
    case While(c, body) =>
      ExprFrom(c, k);
      WalkExprMoves(c, k);
      WalkExprMoves(c, z);
      LoopFrom(body, WalkExpr(c, k));
      LoopFrom(body, WalkExpr(c, z));
    case Nested(b) => BlockFrom(b, k);
    case Break(_) =>
    case Continue(_) =>
  }

  lemma {:induction false} StmtsFrom(ss: seq<Stmt>, k: Look)
    ensures WalkStmts(ss, k) ==
            Look(WalkStmts(ss, Look(k.moved, 0)).moved, k.errors + WalkStmts(ss, Look(k.moved, 0)).errors)
    decreases ss
  {
    if |ss| > 0 {
      StmtFrom(ss[0], k);
      StmtsFrom(ss[1..], WalkStmt(ss[0], k));
      StmtsFrom(ss[1..], WalkStmt(ss[0], Look(k.moved, 0)));
    }
  }

  lemma {:induction false} BlockFrom(b: Block, k: Look)
    ensures WalkBlock(b, k) ==
            Look(WalkBlock(b, Look(k.moved, 0)).moved, k.errors + WalkBlock(b, Look(k.moved, 0)).errors)
    decreases b, 0
  {
    StmtsFrom(b.stmts, k);
  }

  lemma {:induction false} LoopFrom(body: Block, k: Look)
    ensures WalkLoop(body, k) ==
            Look(WalkLoop(body, Look(k.moved, 0)).moved, k.errors + WalkLoop(body, Look(k.moved, 0)).errors)
    decreases body, 1
  {
    BlockFrom(body, k);
    BlockFrom(body, Look(k.moved + WalkBlock(body, k).moved, k.errors));
  }

  /** A loop is quiet exactly when one walk from the folded state is. */
  lemma LoopQuiet(body: Block, m: set<Local>)
    ensures QuietLoop(body, m) <==> QuietBlock(body, m + WalkBlock(body, Look(m, 0)).moved)
  {
    var first := WalkBlock(body, Look(m, 0));
    if first.moved <= m { assert m + first.moved == m; }
  }

  /** Diagnostics concern one local at a time: a piece is quiet from two states
      exactly when it is quiet from their union. */
  lemma {:induction false} ExprUnion(e: Expr, m: set<Local>, n: set<Local>)
    ensures QuietExpr(e, m + n) <==> QuietExpr(e, m) && QuietExpr(e, n)
    decreases e
  {
    if e.Call? { ArgsUnion(e.args, m, n); }
  }

  lemma {:induction false} ArgsUnion(args: seq<Expr>, m: set<Local>, n: set<Local>)
    ensures QuietArgs(args, m + n) <==> QuietArgs(args, m) && QuietArgs(args, n)
    decreases args
  {
    if |args| > 0 {
      ArgsSplit(args, m);
      ArgsSplit(args, n);
      ArgsSplit(args, m + n);
      ExprUnion(args[0], m, n);
      var a, b := ArgMoved(args[0], m), ArgMoved(args[0], n);
      ArgsUnion(args[1..], a, b);
      assert ArgMoved(args[0], m + n) == a + b;
    }
  }

  function ArgMoved(a: Expr, m: set<Local>): set<Local> {
    m + MovedByArg(a)
  }

  function MovedByArg(a: Expr): set<Local> {
    MovedIn(a) + (if a.Use? then {a.x} else {})
  }

  lemma ArgsSplit(args: seq<Expr>, m: set<Local>)
    requires |args| > 0
    ensures QuietArgs(args, m) <==> QuietExpr(args[0], m) && QuietArgs(args[1..], ArgMoved(args[0], m))
  {
    var k := Look(m, 0);
    var next := MarkOwningMove(WalkExpr(args[0], k), args[0]);
    WalkExprMoves(args[0], k);
    ArgsFrom(args[1..], next);
    assert next.moved == ArgMoved(args[0], m);
  }

  lemma {:induction false} StmtUnion(s: Stmt, m: set<Local>, n: set<Local>)
    ensures QuietStmt(s, m + n) <==> QuietStmt(s, m) && QuietStmt(s, n)
    decreases s
  {
    match s
    case Let(x, e) =>
      BindQuiet(e, m);
      BindQuiet(e, n);
      BindQuiet(e, m + n);
      ExprUnion(e, m, n);
    case Assign(x, e, _) =>
      BindQuiet(e, m);
      BindQuiet(e, n);
      BindQuiet(e, m + n);
      ExprUnion(e, m, n);
    case Do(e) => ExprUnion(e, m, n);
    case Return(v, _) => if v.Some? { ExprUnion(v.value, m, n); }
    case If(c, thn, els) =>
      IfSplit(s, m);
      IfSplit(s, n);
      IfSplit(s, m + n);
      ExprUnion(c, m, n);
      var a, b := m + MovedIn(c), n + MovedIn(c);
      assert m + n + MovedIn(c) == a + b;
      BlockUnion(thn, a, b);
      if els.Some? { BlockUnion(els.value, a, b); }
    case While(c, body) =>
      WhileSplit(s, m);
      WhileSplit(s, n);
      WhileSplit(s, m + n);
      ExprUnion(c, m, n);
      var a, b := m + MovedIn(c), n + MovedIn(c);
      assert m + n + MovedIn(c) == a + b;
      LoopUnion(body, a, b);
    case Nested(b) => BlockUnion(b, m, n);
    case Break(_) =>
    case Continue(_) =>
  }

  /** Binding a bare local reports nothing its read did not report already. */
  lemma BindQuiet(e: Expr, m: set<Local>)
    ensures QuietExpr(e, m) ==> MarkOwningMove(WalkExpr(e, Look(m, 0)), e).errors == 0
    ensures MarkOwningMove(WalkExpr(e, Look(m, 0)), e).errors == 0 ==> QuietExpr(e, m)
  {
  }

  lemma IfSplit(s: Stmt, m: set<Local>)
    requires s.If?
    ensures QuietStmt(s, m) <==>
            QuietExpr(s.cond, m) && QuietBlock(s.thn, m + MovedIn(s.cond)) &&
            (s.els.Some? ==> QuietBlock(s.els.value, m + MovedIn(s.cond)))
  {
    var k := Look(m, 0);
    var snap := WalkExpr(s.cond, k);
    WalkExprMoves(s.cond, k);
    BlockFrom(s.thn, snap);
    if s.els.Some? { BlockFrom(s.els.value, Look(snap.moved, WalkBlock(s.thn, snap).errors)); }
  }

  lemma WhileSplit(s: Stmt, m: set<Local>)
    requires s.While?
    ensures QuietStmt(s, m) <==> QuietExpr(s.cond, m) && QuietLoop(s.body, m + MovedIn(s.cond))
  {
    var k := Look(m, 0);
    WalkExprMoves(s.cond, k);
    LoopFrom(s.body, WalkExpr(s.cond, k));
  }

  lemma {:induction false} StmtsUnion(ss: seq<Stmt>, m: set<Local>, n: set<Local>)
    ensures QuietStmts(ss, m + n) <==> QuietStmts(ss, m) && QuietStmts(ss, n)
    decreases ss
  {
    if |ss| > 0 {
      StmtUnion(ss[0], m, n);
      StmtsSplit(ss, m);
      StmtsSplit(ss, n);
      StmtsSplit(ss, m + n);
      var a, b := WalkStmt(ss[0], Look(m, 0)).moved, WalkStmt(ss[0], Look(n, 0)).moved;
      StmtsUnion(ss[1..], a, b);
      forall x ensures x in WalkStmt(ss[0], Look(m + n, 0)).moved <==> x in a + b {
        StmtTransfer(ss[0], Look(m, 0), x);
        StmtTransfer(ss[0], Look(n, 0), x);
        StmtTransfer(ss[0], Look(m + n, 0), x);
      }
      assert WalkStmt(ss[0], Look(m + n, 0)).moved == a + b;
    }
  }

  lemma StmtsSplit(ss: seq<Stmt>, m: set<Local>)
    requires |ss| > 0
    ensures QuietStmts(ss, m) <==>
            QuietStmt(ss[0], m) && QuietStmts(ss[1..], WalkStmt(ss[0], Look(m, 0)).moved)
  {
    StmtsFrom(ss[1..], WalkStmt(ss[0], Look(m, 0)));
  }

  lemma {:induction false} BlockUnion(b: Block, m: set<Local>, n: set<Local>)
    ensures QuietBlock(b, m + n) <==> QuietBlock(b, m) && QuietBlock(b, n)
    decreases b, 0
  {
    StmtsUnion(b.stmts, m, n);
  }

  lemma {:induction false} LoopUnion(body: Block, m: set<Local>, n: set<Local>)
    ensures QuietLoop(body, m + n) <==> QuietLoop(body, m) && QuietLoop(body, n)
    decreases body, 1
  {
    var wm, wn := WalkBlock(body, Look(m, 0)).moved, WalkBlock(body, Look(n, 0)).moved;
    LoopQuiet(body, m);
    LoopQuiet(body, n);
    LoopQuiet(body, m + n);
    WalkOfUnion(body, m, n, 0);
    assert m + n + (wm + wn) == m + wm + (n + wn);
    BlockUnion(body, m + wm, n + wn);
  }

  // ---------------------------------------------------------------------- theorem

  /** The checker's state at the top of iteration `n`. */
  function Entry(body: Block, m: set<Local>, n: nat): set<Local> {
    if n == 0 then m else WalkBlock(body, Look(Entry(body, m, n - 1), 0)).moved
  }

  lemma {:induction false} EntryStable(body: Block, m: set<Local>, n: nat)
    ensures n > 0 ==> Entry(body, m, n) == WalkBlock(body, Look(m, 0)).moved
  {
    if n > 1 {
      EntryStable(body, m, n - 1);
      FoldedIsFixpoint(body, Look(m, 0));
      BlockFrom(body, WalkBlock(body, Look(m, 0)));
    }
  }

  /** Nothing is reported in iteration `n`. */
  predicate QuietAt(body: Block, m: set<Local>, n: nat) {
    QuietBlock(body, Entry(body, m, n))
  }

  lemma QuietLoopIterations(body: Block, m: set<Local>, n: nat)
    requires QuietLoop(body, m)
    ensures QuietAt(body, m, n)
  {
    LoopQuiet(body, m);
    BlockUnion(body, m, WalkBlock(body, Look(m, 0)).moved);
    EntryStable(body, m, n);
  }

  lemma QuietIterationsLoop(body: Block, m: set<Local>)
    requires QuietAt(body, m, 0) && QuietAt(body, m, 1)
    ensures QuietLoop(body, m)
  {
    LoopQuiet(body, m);
    BlockUnion(body, m, WalkBlock(body, Look(m, 0)).moved);
    EntryStable(body, m, 1);
  }

  /** Two walks report something exactly when walking the iterations one after the
      other, for ever, would report something. */
  lemma TwoWalksSuffice(body: Block, m: set<Local>)
    ensures QuietLoop(body, m) <==> forall n: nat :: QuietAt(body, m, n)
  {
    if QuietLoop(body, m) {
      forall n: nat ensures QuietAt(body, m, n) { QuietLoopIterations(body, m, n); }
    } else if QuietAt(body, m, 0) && QuietAt(body, m, 1) {
      QuietIterationsLoop(body, m);
    }
  }

  /** The state kept after a loop covers the path that skips the body exactly when
      the body revives nothing that was moved before. */
  lemma AfterLoopCoversSkipping(body: Block, m: set<Local>)
    ensures m <= WalkLoop(body, Look(m, 0)).moved <==> forall x | x in m :: !BlockEffect(body, x).Revives?
  {
    forall x ensures x in WalkLoop(body, Look(m, 0)).moved <==> Apply(BlockEffect(body, x), x in m) {
      LoopTransfer(body, Look(m, 0), x);
    }
  }
}
