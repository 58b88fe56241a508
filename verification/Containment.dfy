/** The two passes side by side: whatever the drop pass takes for moved, the checker
    takes for moved, at every point of the body, dead code included. */
module Containment {
  import opened Options
  import opened Hir
  import opened Sorting
  import opened DropPass
  import opened MoveChecker
  import opened Scopes
  import opened WellFormed

  // ------------------------------------------------------- the checker on expressions

  lemma {:induction false} WalkExprMoves(e: Expr, k: Look)
    ensures WalkExpr(e, k).moved == k.moved + MovedIn(e)
    ensures WalkExpr(e, k).errors >= k.errors
    decreases e
  {
    if e.Call? { WalkArgsMoves(e.args, k); }
  }

  lemma {:induction false} WalkArgsMoves(args: seq<Expr>, k: Look)
    ensures WalkArgs(args, k).moved == k.moved + MovedInArgs(args)
    ensures WalkArgs(args, k).errors >= k.errors
    decreases args
  {
    if |args| > 0 {
      WalkExprMoves(args[0], k);
      WalkArgsMoves(args[1..], MarkOwningMove(WalkExpr(args[0], k), args[0]));
    }
  }

  lemma {:induction false} MovedInScope(e: Expr, vis: set<Local>)
    requires ExprScoped(e, vis)
    ensures MovedIn(e) <= vis && MovedByBinding(e) <= vis
    decreases e
  {
    if e.Call? { MovedInArgsScope(e.args, vis); }
  }

  lemma {:induction false} MovedInArgsScope(args: seq<Expr>, vis: set<Local>)
    requires ArgsScoped(args, vis)
    ensures MovedInArgs(args) <= vis
    decreases args
  {
    if |args| > 0 {
      MovedInScope(args[0], vis);
      MovedInArgsScope(args[1..], vis);
    }
  }

  // ---------------------------------------------------------- diagnostics never vanish

  lemma {:induction false} ErrorsGrowStmt(s: Stmt, k: Look)
    ensures WalkStmt(s, k).errors >= k.errors
    decreases s
  {
    match s
    case Let(_, e) => WalkExprMoves(e, k);
    case Assign(_, e, _) => WalkExprMoves(e, k);
    case Do(e) => WalkExprMoves(e, k);
    case Return(v, _) => if v.Some? { WalkExprMoves(v.value, k); }
    case If(c, thn, els) =>
      var snap := WalkExpr(c, k);
      WalkExprMoves(c, k);
      ErrorsGrowBlock(thn, snap);
      if els.Some? { ErrorsGrowBlock(els.value, Look(snap.moved, WalkBlock(thn, snap).errors)); }
    case While(c, body) =>
      var now := WalkExpr(c, k);
      WalkExprMoves(c, k);
      ErrorsGrowBlock(body, now);
      ErrorsGrowBlock(body, Look(now.moved + WalkBlock(body, now).moved, now.errors));
    case Nested(b) => ErrorsGrowBlock(b, k);
    case Break(_) =>
    case Continue(_) =>
  }

  lemma {:induction false} ErrorsGrowStmts(ss: seq<Stmt>, k: Look)
    ensures WalkStmts(ss, k).errors >= k.errors
    decreases ss
  {
    if |ss| > 0 {
      ErrorsGrowStmt(ss[0], k);
      ErrorsGrowStmts(ss[1..], WalkStmt(ss[0], k));
    }
  }

  lemma {:induction false} ErrorsGrowBlock(b: Block, k: Look)
    ensures WalkBlock(b, k).errors >= k.errors
    decreases b, 0
  {
    ErrorsGrowStmts(b.stmts, k);
  }

  // ------------------------------------------------------------------------- exits

  /** If the checker thinks a block always exits, so does the drop pass. */
  lemma {:induction false} AlwaysExitsDiverges(b: Block, chain: seq<seq<Local>>, loopStart: Option<nat>,
                                               inherited: set<Local>)
    requires AlwaysExits(b)
    ensures VisitBlock(b, chain, loopStart, inherited).diverges
    decreases b, 1
  {
    ExitsInStmts(b.stmts, chain, [], loopStart, inherited);
  }

  predicate LastExits(ss: seq<Stmt>) {
    |ss| > 0 && AlwaysExits(Block(ss, []))
  }

  lemma {:induction false} ExitsInStmts(ss: seq<Stmt>, outer: seq<seq<Local>>, scope: seq<Local>,
                                        loopStart: Option<nat>, moved: set<Local>)
    requires LastExits(ss)
    ensures VisitStmts(ss, outer, scope, loopStart, moved).diverges
    decreases ss
  {
    var h := VisitStmt(ss[0], outer, scope, loopStart, moved);
    if |ss| > 1 {
      assert ss[1..][|ss[1..]| - 1] == ss[|ss| - 1];
      ExitsInStmts(ss[1..], outer, h.scope, loopStart, h.moved);
    } else {
      match ss[0]
      case If(_, thn, els) =>
        AlwaysExitsDiverges(thn, outer + [scope], loopStart, moved);
        AlwaysExitsDiverges(els.value, outer + [scope], loopStart, moved);
      case Nested(b) => AlwaysExitsDiverges(b, outer + [scope], loopStart, moved);
      case _ =>
    }
  }

  // -------------------------------------------------------------------- containment

  /** The shape every position of the walk keeps: distinct locals, and moves confined to
      visible ones. */
  ghost predicate Good(outer: seq<seq<Local>>, scope: seq<Local>, moved: set<Local>) {
    NoDup(Flat(outer + [scope])) && moved <= Vis(outer + [scope])
  }

  lemma GoodEntry(chain: seq<seq<Local>>, inherited: set<Local>)
    requires NoDup(Flat(chain)) && inherited <= Vis(chain)
    ensures Good(chain, [], inherited)
    ensures Vis(chain + [[]]) == Vis(chain)
  {
    FlatSnoc(chain, []);
    assert Flat(chain) + [] == Flat(chain);
  }

  lemma VisPush(outer: seq<seq<Local>>, scope: seq<Local>, x: Local)
    requires NoDup(Flat(outer + [scope])) && x !in Vis(outer + [scope])
    ensures NoDup(Flat(outer + [scope + [x]])) && Vis(outer + [scope + [x]]) == Vis(outer + [scope]) + {x}
  {
    FlatSnoc(outer, scope);
    FlatSnoc(outer, scope + [x]);
    assert Flat(outer) + (scope + [x]) == Flat(outer) + scope + [x];
    NoDupSnoc(Flat(outer) + scope, x);
  }

  /** Closing a block: its own locals leave, the escaped moves stay. */
  lemma BlockEnd(chain: seq<seq<Local>>, scope: seq<Local>, inherited: set<Local>, moved: set<Local>)
    requires Good(chain, scope, moved) && inherited <= Vis(chain)
    ensures NoDup(scope) && Elems(scope) !! Vis(chain)
    ensures Vis(chain + [scope]) == Vis(chain) + Elems(scope)
    ensures var escaped := moved - inherited - Elems(scope);
            escaped <= Vis(chain) && (inherited <= moved ==> inherited + escaped == moved - Elems(scope))
  {
    FlatSnoc(chain, scope);
    NoDupSplit(Flat(chain), scope);
  }

  lemma {:induction false} ContainedStmt(s: Stmt, outer: seq<seq<Local>>, scope: seq<Local>, c: Ctx,
                                         moved: set<Local>, k: Look)
    requires Good(outer, scope, moved)
    requires StmtScoped(s, Vis(outer + [scope]), c.InLoop?)
    requires StmtTame(s, outer, scope, c, moved)
    requires moved <= k.moved
    ensures var r := VisitStmt(s, outer, scope, Start(c), moved);
            && Good(outer, r.scope, r.moved)
            && Vis(outer + [r.scope]) == After(s, Vis(outer + [scope]))
            && r.moved <= WalkStmt(s, k).moved
    decreases s
  {
    var vis := Vis(outer + [scope]);
    match s
    case Let(x, e) =>
      WalkExprMoves(e, k);
      MovedInScope(e, vis);
      if Owns(e) { VisPush(outer, scope, x); }
    case Assign(x, e, _) =>
      WalkExprMoves(e, k);
      MovedInScope(e, vis);
    case Do(e) =>
      WalkExprMoves(e, k);
      MovedInScope(e, vis);
    case Return(v, _) =>
      if v.Some? {
        WalkExprMoves(v.value, k);
        MovedInScope(v.value, vis);
      }
    case If(cond, thn, els) => ContainedIf(s, outer, scope, c, moved, k);
    case While(cond, body) =>
      var now := WalkExpr(cond, k);
      WalkExprMoves(cond, k);
      var inner := InLoop(|outer + [scope]|, moved);
      ContainedBlock(body, outer + [scope], inner, moved, now);
      ContainedBlock(body, outer + [scope], inner, moved, Look(now.moved + WalkBlock(body, now).moved, now.errors));
    case Nested(b) => ContainedBlock(b, outer + [scope], c, moved, k);
    case Break(_) =>
    case Continue(_) =>
  }

  lemma {:induction false} ContainedIf(s: Stmt, outer: seq<seq<Local>>, scope: seq<Local>, c: Ctx,
                                       moved: set<Local>, k: Look)
    requires s.If? && Good(outer, scope, moved)
    requires StmtScoped(s, Vis(outer + [scope]), c.InLoop?)
    requires StmtTame(s, outer, scope, c, moved)
    requires moved <= k.moved
    ensures var r := VisitStmt(s, outer, scope, Start(c), moved);
            && Good(outer, r.scope, r.moved)
            && r.scope == scope
            && r.moved <= WalkStmt(s, k).moved
    decreases s, 0
  {
    var chain := outer + [scope];
    var snap := WalkExpr(s.cond, k);
    WalkExprMoves(s.cond, k);
    ContainedBlock(s.thn, chain, c, moved, snap);
    if AlwaysExits(s.thn) { AlwaysExitsDiverges(s.thn, chain, Start(c), moved); }
    if s.els.Some? {
      ContainedBlock(s.els.value, chain, c, moved, Look(snap.moved, WalkBlock(s.thn, snap).errors));
      if AlwaysExits(s.els.value) { AlwaysExitsDiverges(s.els.value, chain, Start(c), moved); }
    }
  }

  lemma {:induction false} ContainedStmts(ss: seq<Stmt>, outer: seq<seq<Local>>, scope: seq<Local>, c: Ctx,
                                          moved: set<Local>, k: Look)
    requires Good(outer, scope, moved)
    requires StmtsScoped(ss, Vis(outer + [scope]), c.InLoop?)
    requires StmtsTame(ss, outer, scope, c, moved)
    requires moved <= k.moved
    ensures var r := VisitStmts(ss, outer, scope, Start(c), moved);
            && Good(outer, r.scope, r.moved)
            && r.moved <= WalkStmts(ss, k).moved
    decreases ss
  {
    if |ss| > 0 {
      ContainedStmt(ss[0], outer, scope, c, moved, k);
      var h := VisitStmt(ss[0], outer, scope, Start(c), moved);
      ContainedStmts(ss[1..], outer, h.scope, c, h.moved, WalkStmt(ss[0], k));
    }
  }

  lemma {:induction false} ContainedBlock(b: Block, chain: seq<seq<Local>>, c: Ctx, inherited: set<Local>, k: Look)
    requires NoDup(Flat(chain)) && inherited <= Vis(chain)
    requires BlockScoped(b, Vis(chain), c.InLoop?) && BlockTame(b, chain, c, inherited)
    requires inherited <= k.moved
    ensures var r := VisitBlock(b, chain, Start(c), inherited);
            r.escaped <= Vis(chain) &&
            (Restores(b, chain, c, inherited) ==> inherited + r.escaped <= WalkBlock(b, k).moved)
    decreases b
  {
    GoodEntry(chain, inherited);
    ContainedStmts(b.stmts, chain, [], c, inherited, k);
    var r := VisitStmts(b.stmts, chain, [], Start(c), inherited);
    BlockEnd(chain, r.scope, inherited, r.moved);
  }
}
