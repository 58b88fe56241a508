/** The two-walk check against actual runs: a loop it passes never touches, in any
    iteration, a value given away in an earlier one. */
module LoopRuns {
  import opened Options
  import opened Hir
  import opened Ownership
  import opened Paths
  import opened MoveChecker
  import opened Containment
  import opened LoopMoves

  /** Locals whose value is gone after the event. */
  function GoneAfter(gone: set<Local>, e: Event): set<Local> {
    match e
    case GiveAway(x) => gone + {x}
    case Fresh(x) => gone - {x}
    case Hand(y, x) => gone + {y} - {x}
    case _ => gone
  }

  function Gone(gone: set<Local>, es: seq<Event>): set<Local>
    decreases |es|
  {
    if |es| == 0 then gone else Gone(GoneAfter(gone, es[0]), es[1..])
  }

  predicate Fine(gone: set<Local>, e: Event) {
    match e
    case Read(x) => x !in gone
    case GiveAway(x) => x !in gone
    case Hand(y, _) => y !in gone
    case _ => true
  }

  /** The events never read or move a value that is gone. */
  predicate NoStaleUse(gone: set<Local>, es: seq<Event>)
    decreases |es|
  {
    |es| == 0 || (Fine(gone, es[0]) && NoStaleUse(GoneAfter(gone, es[0]), es[1..]))
  }

  lemma {:induction false} StaleConcat(gone: set<Local>, a: seq<Event>, b: seq<Event>)
    ensures Gone(gone, a + b) == Gone(Gone(gone, a), b)
    ensures NoStaleUse(gone, a + b) <==> NoStaleUse(gone, a) && NoStaleUse(Gone(gone, a), b)
    decreases |a|
  {
    if |a| == 0 {
      assert a + b == b;
    } else {
      assert (a + b)[1..] == a[1..] + b;
      StaleConcat(GoneAfter(gone, a[0]), a[1..], b);
    }
  }

  lemma DropsTouchNothing(gone: set<Local>, xs: seq<Local>)
    ensures Gone(gone, DropEvents(xs)) == gone && NoStaleUse(gone, DropEvents(xs))
    decreases |xs|
  {
    if |xs| > 0 {
      assert DropEvents(xs)[1..] == DropEvents(xs[1..]);
      DropsTouchNothing(gone, xs[1..]);
    }
  }

  lemma One(gone: set<Local>, e: Event)
    ensures Gone(gone, [e]) == GoneAfter(gone, e)
    ensures NoStaleUse(gone, [e]) <==> Fine(gone, e)
  {
    assert [e][1..] == [];
    assert Gone(GoneAfter(gone, e), []) == GoneAfter(gone, e);
    assert NoStaleUse(GoneAfter(gone, e), []);
  }

  // ---------------------------------------------------------------- expressions

  lemma {:induction false} EvalClean(e: Expr, gone: set<Local>, m: set<Local>)
    requires gone <= m && QuietExpr(e, m)
    ensures NoStaleUse(gone, EvalEvents(e)) && Gone(gone, EvalEvents(e)) == gone + MovedIn(e)
    ensures e.Call? ==> NoStaleUse(gone, CallEvents(e.args)) && Gone(gone, CallEvents(e.args)) == gone + MovedIn(e)
    ensures e.Use? ==> e.x !in m
    decreases e, 1
  {
    match e
    case Lit =>
    case Use(x) => One(gone, Read(x));
    case Borrow(x) => One(gone, Read(x));
    case Call(owns, args) =>
      ArgsClean(args, gone, m);
      StaleConcat(gone, ArgEvents(args), Handover(args));
      StaleConcat(gone, CallEvents(args), [Temp]);
      One(gone + MovedIn(e), Temp);
      assert CallEvents(args) + [] == CallEvents(args);
  }

  function Late(args: seq<Expr>): set<Local> {
    if |args| == 0 then {} else (if args[0].Use? then {args[0].x} else {}) + Late(args[1..])
  }

  function Early(args: seq<Expr>): set<Local> {
    if |args| == 0 then {} else MovedIn(args[0]) + Early(args[1..])
  }

  lemma {:induction false} ArgsClean(args: seq<Expr>, gone: set<Local>, m: set<Local>)
    requires gone <= m && QuietArgs(args, m)
    ensures NoStaleUse(gone, ArgEvents(args)) && Gone(gone, ArgEvents(args)) == gone + Early(args)
    ensures NoStaleUse(gone + Early(args), Handover(args))
    ensures Gone(gone + Early(args), Handover(args)) == gone + MovedInArgs(args)
    decreases args, 1
  {
    ArgEventsClean(args, gone, m);
    HandoverClean(args, gone + Early(args), m);
    EarlyAndLate(args);
  }

  lemma {:induction false} EarlyAndLate(args: seq<Expr>)
    ensures Early(args) + Late(args) == MovedInArgs(args)
    decreases args
  {
    if |args| > 0 { EarlyAndLate(args[1..]); }
  }

  lemma {:induction false} ArgEventsClean(args: seq<Expr>, gone: set<Local>, m: set<Local>)
    requires gone <= m && QuietArgs(args, m)
    ensures NoStaleUse(gone, ArgEvents(args)) && Gone(gone, ArgEvents(args)) == gone + Early(args)
    decreases args, 0
  {
    if |args| > 0 {
      ArgsSplit(args, m);
      EvalClean(args[0], gone, m);
      ArgEventsClean(args[1..], gone + MovedIn(args[0]), ArgMoved(args[0], m));
      StaleConcat(gone, EvalEvents(args[0]), ArgEvents(args[1..]));
      assert gone + MovedIn(args[0]) + Early(args[1..]) == gone + Early(args);
    } else {
      assert gone + {} == gone;
    }
  }

  /** A local passed by value is passed once and not consumed elsewhere in the call. */
  lemma {:induction false} LateFresh(args: seq<Expr>, m: set<Local>)
    requires QuietArgs(args, m)
    ensures Late(args) !! m && Early(args) !! m && Late(args) !! Early(args)
    decreases args
  {
    if |args| > 0 {
      ArgsSplit(args, m);
      LateFresh(args[1..], ArgMoved(args[0], m));
      MovedFresh(args[0], m);
    }
  }

  lemma {:induction false} MovedFresh(e: Expr, m: set<Local>)
    requires QuietExpr(e, m)
    ensures MovedIn(e) !! m && (e.Use? ==> e.x !in m)
    decreases e
  {
    if e.Call? {
      LateFresh(e.args, m);
      EarlyAndLate(e.args);
    }
  }

  lemma {:induction false} HandoverFrom(args: seq<Expr>, gone: set<Local>, m: set<Local>)
    requires QuietArgs(args, m) && gone !! Late(args)
    ensures NoStaleUse(gone, Handover(args)) && Gone(gone, Handover(args)) == gone + Late(args)
    decreases args
  {
    if |args| == 0 {
      assert gone + {} == gone;
    } else {
      ArgsSplit(args, m);
      var rest := ArgMoved(args[0], m);
      LateFresh(args[1..], rest);
      if args[0].Use? {
        var x := args[0].x;
        One(gone, GiveAway(x));
        HandoverFrom(args[1..], gone + {x}, rest);
        StaleConcat(gone, [GiveAway(x)], Handover(args[1..]));
        assert gone + {x} + Late(args[1..]) == gone + Late(args);
      } else {
        HandoverFrom(args[1..], gone, rest);
        assert Handover(args) == Handover(args[1..]);
      }
    }
  }

  lemma HandoverClean(args: seq<Expr>, gone: set<Local>, m: set<Local>)
    requires QuietArgs(args, m) && gone <= m + Early(args)
    ensures NoStaleUse(gone, Handover(args)) && Gone(gone, Handover(args)) == gone + Late(args)
  {
    LateFresh(args, m);
    HandoverFrom(args, gone, m);
  }

  // ----------------------------------------------------------------- statements

  /** The state at the top of an iteration other than the first, as the checker has it. */
  function Top(body: Block, m: set<Local>): set<Local> {
    m + WalkBlock(body, Look(m, 0)).moved
  }

  /** What the checker leaves open about a loop entered with `m` moved: that it may run no
      iteration at all, so its body must not count on refilling what was moved before; and
      that its condition is looked at again after the body. */
  ghost predicate Steady(c: Expr, body: Block, m: set<Local>) {
    && MovedIn(c) == {} && QuietExpr(c, Top(body, m))
    && forall x | x in m :: !BlockEffect(body, x).Revives?
  }

  /** `x` is given an owned value, or was never held for moved. */
  predicate Settles(x: Local, e: Expr, m: set<Local>) {
    Owns(e) || x !in m + MovedIn(e)
  }

  /** From the state `m`: no break or continue, and nested loops are steady. */
  ghost predicate StraightStmt(s: Stmt, m: set<Local>)
    decreases s
  {
    match s
    case Let(x, e) => Settles(x, e, m)
    case Assign(x, e, _) => Settles(x, e, m)
    case If(c, thn, els) =>
      StraightBlock(thn, m + MovedIn(c)) && (els.Some? ==> StraightBlock(els.value, m + MovedIn(c)))
    case Nested(b) => StraightBlock(b, m)
    case While(c, body) => Steady(c, body, m) && StraightBlock(body, Top(body, m))
    case Break(_) => false
    case Continue(_) => false
    case _ => true
  }

  ghost predicate StraightStmts(ss: seq<Stmt>, m: set<Local>)
    decreases ss
  {
    |ss| == 0 || (StraightStmt(ss[0], m) && StraightStmts(ss[1..], WalkStmt(ss[0], Look(m, 0)).moved))
  }

  ghost predicate StraightBlock(b: Block, m: set<Local>)
    decreases b
  {
    StraightStmts(b.stmts, m)
  }

  /** A run piece touches nothing that is gone, and what is gone when it falls
      through is known to the checker. */
  predicate Clean(p: Path, gone: set<Local>, known: set<Local>) {
    NoStaleUse(gone, p.events) && (p.flow.Falls? ==> Gone(gone, p.events) <= known) &&
    !p.flow.Broke? && !p.flow.Continued?
  }

  lemma BindClean(x: Local, e: Expr, gone: set<Local>, m: set<Local>)
    requires gone <= m && QuietExpr(e, m)
    ensures NoStaleUse(gone, BindEvents(x, e))
    ensures Gone(gone, BindEvents(x, e)) <= gone + MovedByArg(e)
    ensures Settles(x, e, m) ==> x !in Gone(gone, BindEvents(x, e))
  {
    EvalClean(e, gone, m);
    match e
    case Use(y) =>
      One(gone, Read(y));
      One(gone, Hand(y, x));
      StaleConcat(gone, [Read(y)], [Hand(y, x)]);
      assert [Read(y)] + [Hand(y, x)] == BindEvents(x, e);
    case Call(true, args) =>
      One(gone + MovedIn(e), Fresh(x));
      StaleConcat(gone, CallEvents(args), [Fresh(x)]);
    case _ =>
  }

  lemma AssignClean(x: Local, e: Expr, dropOld: bool, gone: set<Local>, m: set<Local>)
    requires gone <= m && QuietExpr(e, m) && Settles(x, e, m)
    ensures NoStaleUse(gone, AssignEvents(x, e, dropOld))
    ensures Gone(gone, AssignEvents(x, e, dropOld)) <= gone + MovedByArg(e) - {x}
  {
    var prior := if dropOld then [Drop(x)] else [];
    BindClean(x, e, gone, m);
    EvalClean(e, gone, m);
    One(gone, Drop(x));
    One(gone + MovedIn(e), Drop(x));
    if !Mentions(e, x) {
      StaleConcat(gone, prior, BindEvents(x, e));
    } else {
      match e
      case Use(y) =>
        One(gone, Read(y));
        One(gone, Hand(y, x));
        StaleConcat(gone, [Read(y)] + prior, [Hand(y, x)]);
        StaleConcat(gone, [Read(y)], prior);
      case Call(true, args) =>
        One(gone + MovedIn(e), Fresh(x));
        StaleConcat(gone, CallEvents(args) + prior, [Fresh(x)]);
        StaleConcat(gone, CallEvents(args), prior);
      case _ => StaleConcat(gone, EvalEvents(e), prior);
    }
  }

  lemma ReturnClean(v: Option<Expr>, drops: seq<Local>, gone: set<Local>, m: set<Local>)
    requires gone <= m && (v.Some? ==> QuietExpr(v.value, m))
    ensures NoStaleUse(gone, ReturnEvents(v, drops))
  {
    if v.Some? {
      var e := v.value;
      EvalClean(e, gone, m);
      DropsTouchNothing(gone + MovedIn(e), drops);
      if e.Use? {
        One(gone, Read(e.x));
        One(gone, GiveAway(e.x));
        DropsTouchNothing(gone + {e.x}, drops);
        assert [Read(e.x)] + [GiveAway(e.x)] == [Read(e.x), GiveAway(e.x)];
        StaleConcat(gone, [Read(e.x)], [GiveAway(e.x)]);
        StaleConcat(gone, [Read(e.x), GiveAway(e.x)], DropEvents(drops));
      } else {
        StaleConcat(gone, EvalEvents(e), DropEvents(drops));
      }
    } else {
      DropsTouchNothing(gone, drops);
      assert ReturnEvents(v, drops) == DropEvents(drops);
    }
  }

  lemma {:induction false} ExitsDontFall(b: Block, ch: seq<bool>)
    requires AlwaysExits(b)
    ensures !RunBlock(b, ch).flow.Falls?
    decreases b, 1
  {
    ExitingStmts(b.stmts, ch);
  }

  lemma {:induction false} ExitingStmts(ss: seq<Stmt>, ch: seq<bool>)
    requires LastExits(ss)
    ensures !RunStmts(ss, ch).flow.Falls?
    decreases ss
  {
    if |ss| > 1 {
      assert ss[1..][|ss[1..]| - 1] == ss[|ss| - 1];
      ExitingStmts(ss[1..], RunStmt(ss[0], ch).rest);
    } else {
      match ss[0]
      case If(_, thn, els) =>
        if |ch| > 0 {
          ExitsDontFall(thn, ch[1..]);
          ExitsDontFall(els.value, ch[1..]);
        }
      case Nested(b) => ExitsDontFall(b, ch);
      case _ =>
    }
  }

  lemma {:induction false} StmtClean(s: Stmt, ch: seq<bool>, gone: set<Local>, m: set<Local>)
    requires StraightStmt(s, m) && gone <= m && QuietStmt(s, m)
    ensures Clean(RunStmt(s, ch), gone, WalkStmt(s, Look(m, 0)).moved)
    decreases s
  {
    var k := Look(m, 0);
    match s
    case Let(x, e) =>
      BindQuiet(e, m);
      WalkExprMoves(e, k);
      LetQuiet(s, m);
      BindClean(x, e, gone, m);
      MovedFresh(e, m);
      EvalClean(e, gone, m);
    case Assign(x, e, dropOld) =>
      BindQuiet(e, m);
      WalkExprMoves(e, k);
      AssignClean(x, e, dropOld, gone, m);
    case Do(e) =>
      WalkExprMoves(e, k);
      EvalClean(e, gone, m);
    case Return(v, drops) => ReturnClean(v, drops, gone, m);
    case If(c, thn, els) => IfClean(s, ch, gone, m);
    case Nested(b) => BlockClean(b, ch, gone, m);
    case While(c, body) =>
      WhileSplit(s, m);
      SteadyLoop(c, body, m);
      assert m + MovedIn(c) == m;
      LoopClean(c, body, m, ch, gone);
  }

  lemma LetQuiet(s: Stmt, m: set<Local>)
    requires s.Let? && QuietStmt(s, m)
    ensures QuietExpr(s.init, m)
  {
  }

  lemma {:induction false} IfClean(s: Stmt, ch: seq<bool>, gone: set<Local>, m: set<Local>)
    requires s.If? && StraightStmt(s, m) && gone <= m && QuietStmt(s, m)
    ensures Clean(RunStmt(s, ch), gone, WalkStmt(s, Look(m, 0)).moved)
    decreases s, 0
  {
    var c := EvalEvents(s.cond);
    var here := gone + MovedIn(s.cond);
    var known := m + MovedIn(s.cond);
    var k := Look(m, 0);
    var snap := WalkExpr(s.cond, k);
    IfSplit(s, m);
    WalkExprMoves(s.cond, k);
    EvalClean(s.cond, gone, m);
    if |ch| > 0 {
      var t := WalkBlock(s.thn, snap);
      BlockFrom(s.thn, snap);
      if s.els.Some? { BlockFrom(s.els.value, Look(snap.moved, t.errors)); }
      if ch[0] {
        BlockClean(s.thn, ch[1..], here, known);
        StaleConcat(gone, c, RunBlock(s.thn, ch[1..]).events);
        if AlwaysExits(s.thn) { ExitsDontFall(s.thn, ch[1..]); }
      } else if s.els.Some? {
        BlockClean(s.els.value, ch[1..], here, known);
        StaleConcat(gone, c, RunBlock(s.els.value, ch[1..]).events);
        if AlwaysExits(s.els.value) { ExitsDontFall(s.els.value, ch[1..]); }
      }
    }
  }

  lemma {:induction false} StmtsClean(ss: seq<Stmt>, ch: seq<bool>, gone: set<Local>, m: set<Local>)
    requires StraightStmts(ss, m) && gone <= m && QuietStmts(ss, m)
    ensures Clean(RunStmts(ss, ch), gone, WalkStmts(ss, Look(m, 0)).moved)
    decreases ss
  {
    if |ss| > 0 {
      StmtsSplit(ss, m);
      StmtClean(ss[0], ch, gone, m);
      var first := RunStmt(ss[0], ch);
      var next := WalkStmt(ss[0], Look(m, 0));
      if first.flow.Falls? {
        StmtsClean(ss[1..], first.rest, Gone(gone, first.events), next.moved);
        StmtsFrom(ss[1..], next);
        StaleConcat(gone, first.events, RunStmts(ss[1..], first.rest).events);
      }
    }
  }

  lemma {:induction false} BlockClean(b: Block, ch: seq<bool>, gone: set<Local>, m: set<Local>)
    requires StraightBlock(b, m) && gone <= m && QuietBlock(b, m)
    ensures Clean(RunBlock(b, ch), gone, WalkBlock(b, Look(m, 0)).moved)
    decreases b, 0
  {
    StmtsClean(b.stmts, ch, gone, m);
    var p := RunStmts(b.stmts, ch);
    DropsTouchNothing(Gone(gone, p.events), b.heapToFree);
    StaleConcat(gone, p.events, DropEvents(b.heapToFree));
  }

  // ---------------------------------------------------------------------- loops

  /** The state the checker keeps after a steady loop is the one at the top of a turn. */
  lemma SteadyLoop(c: Expr, body: Block, m: set<Local>)
    requires Steady(c, body, m)
    ensures WalkStmt(While(c, body), Look(m, 0)).moved == Top(body, m)
  {
    var k := WalkExpr(c, Look(m, 0));
    WalkExprMoves(c, Look(m, 0));
    forall x
      ensures x in WalkBlock(body, Look(m, 0)).moved <==> Apply(BlockEffect(body, x), x in m)
      ensures x in WalkLoop(body, k).moved <==> Apply(BlockEffect(body, x), x in m)
    {
      BlockTransfer(body, Look(m, 0), x);
      LoopTransfer(body, k, x);
    }
  }

  lemma {:induction false} LoopClean(c: Expr, body: Block, m: set<Local>, ch: seq<bool>, gone: set<Local>)
    requires StraightBlock(body, Top(body, m)) && QuietLoop(body, m)
    requires MovedIn(c) == {} && QuietExpr(c, Top(body, m)) && gone <= Top(body, m)
    ensures Clean(RunLoop(c, body, ch), gone, Top(body, m))
    decreases body, 1, |ch|
  {
    var top := Top(body, m);
    LoopQuiet(body, m);
    EvalClean(c, gone, top);
    assert gone + MovedIn(c) == gone;
    if |ch| > 0 && ch[0] {
      var once := RunBlock(body, ch[1..]);
      BlockClean(body, ch[1..], gone, top);
      FoldedIsFixpoint(body, Look(m, 0));
      StaleConcat(gone, EvalEvents(c), once.events);
      if once.flow.Falls? {
        var now := Gone(gone, once.events);
        LoopClean(c, body, m, once.rest, now);
        StaleConcat(gone, EvalEvents(c) + once.events, RunLoop(c, body, once.rest).events);
      }
    }
  }

  // --------------------------------------------------------------------- theorem

  /** If the two walks report nothing, no run of the loop, however many iterations it
      makes, reads or moves a value given away earlier.  The condition is walked only
      once by the checker, so that it stays quiet is a separate assumption. */
  lemma NoIterationReadsMovedValue(c: Expr, body: Block, m: set<Local>, ch: seq<bool>, gone: set<Local>)
    requires StraightBlock(body, Top(body, m)) && QuietLoop(body, m)
    requires MovedIn(c) == {} && QuietExpr(c, Top(body, m)) && gone <= Top(body, m)
    ensures NoStaleUse(gone, RunLoop(c, body, ch).events)
  {
    LoopClean(c, body, m, ch, gone);
  }
}
