/** What the front end guarantees about a body before the ownership passes run, and
    the shapes on which the two passes agree. */
module WellFormed {
  import opened Options
  import opened Hir
  import opened DropPass
  import opened MoveChecker
  import opened Scopes

  // ------------------------------------------------------- name resolution, typing

  predicate ExprScoped(e: Expr, vis: set<Local>)
    decreases e
  {
    match e
    case Lit => true
    case Use(x) => x in vis
    case Borrow(x) => x in vis
    case Call(_, args) => ArgsScoped(args, vis)
  }

  predicate ArgsScoped(args: seq<Expr>, vis: set<Local>)
    decreases args
  {
    |args| == 0 || (ExprScoped(args[0], vis) && ArgsScoped(args[1..], vis))
  }

  function After(s: Stmt, vis: set<Local>): set<Local> {
    if s.Let? && Owns(s.init) then vis + {s.x} else vis
  }

  /** Locals are declared once and used in scope; owning places receive owning
      values with drop-on-reassign set; jumps sit inside a loop. */
  predicate StmtScoped(s: Stmt, vis: set<Local>, inLoop: bool)
    decreases s
  {
    match s
    case Let(x, e) => x !in vis && ExprScoped(e, vis)
    case Assign(x, e, dropOld) => x in vis && Owns(e) && dropOld && ExprScoped(e, vis)
    case Do(e) => ExprScoped(e, vis)
    case Return(v, _) => v.Some? ==> ExprScoped(v.value, vis)
    case If(c, thn, els) =>
      ExprScoped(c, vis) && BlockScoped(thn, vis, inLoop) && (els.Some? ==> BlockScoped(els.value, vis, inLoop))
    case While(c, body) => ExprScoped(c, vis) && BlockScoped(body, vis, true)
    case Nested(b) => BlockScoped(b, vis, inLoop)
    case Break(_) => inLoop
    case Continue(_) => inLoop
  }

  predicate StmtsScoped(ss: seq<Stmt>, vis: set<Local>, inLoop: bool)
    decreases ss
  {
    |ss| == 0 || (StmtScoped(ss[0], vis, inLoop) && StmtsScoped(ss[1..], After(ss[0], vis), inLoop))
  }

  predicate BlockScoped(b: Block, vis: set<Local>, inLoop: bool)
    decreases b
  {
    StmtsScoped(b.stmts, vis, inLoop)
  }

  // -------------------------------------------------------------------- agreement

  /** The loop around a statement: how much of the scope chain lies outside it, and
      what the drop pass held for moved when it entered the body. */
  datatype Ctx = NoLoop | InLoop(start: nat, entry: set<Local>)

  function Start(c: Ctx): Option<nat> {
    if c.InLoop? then Some(c.start) else None
  }

  /** Locals still owned outside the loop. */
  function Outside(chain: seq<seq<Local>>, c: Ctx): set<Local> {
    if c.InLoop? && c.start <= |chain| then Vis(chain[..c.start]) - c.entry else {}
  }

  /** What a block inherited as moved is moved again at its end: a local refilled in it
      was given away once more. */
  predicate Restores(b: Block, chain: seq<seq<Local>>, c: Ctx, inherited: set<Local>) {
    inherited <= VisitStmts(b.stmts, chain, [], Start(c), inherited).moved
  }

  /** The three restrictions under which the drop pass's bookkeeping is right: a local
      moved outside a block and refilled in it is moved again where control leaves the
      block, unless that leaves the function or, in the arm of an `if`, never goes on
      behind it; conditions hand nothing over; and no path leaves a loop iteration having
      moved something owned outside the loop. */
  predicate StmtTame(s: Stmt, outer: seq<seq<Local>>, scope: seq<Local>, c: Ctx, moved: set<Local>)
    decreases s
  {
    var chain := outer + [scope];
    match s
    case If(cond, thn, els) =>
      && MovedIn(cond) == {}
      && BlockTame(thn, chain, c, moved) && (AlwaysExits(thn) || Restores(thn, chain, c, moved))
      && (els.Some? ==>
            && BlockTame(els.value, chain, c, moved)
            && ((AlwaysExits(els.value) && !AlwaysExits(thn)) || Restores(els.value, chain, c, moved)))
    case While(cond, body) =>
      var inner := InLoop(|chain|, moved);
      && MovedIn(cond) == {}
      && BlockTame(body, chain, inner, moved) && Restores(body, chain, inner, moved)
      && EndsNeutral(body, chain, inner, moved)
    case Nested(b) => BlockTame(b, chain, c, moved) && Restores(b, chain, c, moved)
    case Break(_) => LeavesNeutral(chain, c, moved)
    case Continue(_) => LeavesNeutral(chain, c, moved)
    case _ => true
  }

  predicate LeavesNeutral(chain: seq<seq<Local>>, c: Ctx, moved: set<Local>) {
    moved !! Outside(chain, c) && (c.InLoop? ==> c.entry <= moved)
  }

  predicate StmtsTame(ss: seq<Stmt>, outer: seq<seq<Local>>, scope: seq<Local>, c: Ctx, moved: set<Local>)
    decreases ss
  {
    |ss| == 0 ||
    (StmtTame(ss[0], outer, scope, c, moved) &&
     var h := VisitStmt(ss[0], outer, scope, Start(c), moved);
     StmtsTame(ss[1..], outer, h.scope, c, h.moved))
  }

  predicate BlockTame(b: Block, chain: seq<seq<Local>>, c: Ctx, inherited: set<Local>)
    decreases b
  {
    StmtsTame(b.stmts, chain, [], c, inherited)
  }

  predicate EndsNeutral(body: Block, chain: seq<seq<Local>>, c: Ctx, inherited: set<Local>) {
    var r := VisitBlock(body, chain, Start(c), inherited);
    r.diverges || r.escaped !! Outside(chain, c)
  }

  predicate BodyScoped(body: Block) {
    BlockScoped(body, {}, false)
  }

  predicate BodyTame(body: Block) {
    BlockTame(body, [], NoLoop, {})
  }
}
