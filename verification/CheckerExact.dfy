/** The move checker against runs, in both directions: on bodies without loops and dead
    code it accepts exactly the bodies no run of which uses a value given away. */
module CheckerExact {
  import opened Options
  import opened Hir
  import opened Ownership
  import opened Paths
  import opened Audit
  import opened MoveChecker
  import opened WellFormed
  import opened Containment
  import opened LoopMoves
  import opened LoopRuns

  // ------------------------------------------------------- blocks that always exit

  ghost predicate CanFall(s: Stmt) {
    exists ch :: RunStmt(s, ch).flow.Falls?
  }

  /** No dead code: control can get past every statement that another one follows. */
  ghost predicate LiveStmt(s: Stmt)
    decreases s
  {
    match s
    case If(_, thn, els) => LiveBlock(thn) && (els.Some? ==> LiveBlock(els.value))
    case While(_, body) => LiveBlock(body)
    case Nested(b) => LiveBlock(b)
    case _ => true
  }

  ghost predicate LiveStmts(ss: seq<Stmt>)
    decreases ss
  {
    |ss| == 0 || (LiveStmt(ss[0]) && (|ss| > 1 ==> CanFall(ss[0])) && LiveStmts(ss[1..]))
  }

  ghost predicate LiveBlock(b: Block)
    decreases b
  {
    LiveStmts(b.stmts)
  }

  /** Some run gets through two pieces if some run gets through each. */
  lemma RunOn(ss: seq<Stmt>, first: seq<bool>, later: seq<bool>) returns (ch: seq<bool>)
    requires |ss| > 0 && RunStmt(ss[0], first).flow.Falls?
    ensures RunStmts(ss, ch) == Prefixed(RunStmt(ss[0], first).events, RunStmts(ss[1..], later))
  {
    var used := FrameStmt(ss[0], first, later);
    ch := used + later;
  }

  lemma {:induction false} FallsThrough(b: Block) returns (ch: seq<bool>)
    requires LiveBlock(b) && !AlwaysExits(b)
    ensures RunBlock(b, ch).flow.Falls?
    decreases b, 1
  {
    ch := StmtsFall(b.stmts);
  }

  lemma {:induction false} StmtsFall(ss: seq<Stmt>) returns (ch: seq<bool>)
    requires LiveStmts(ss) && !LastExits(ss)
    ensures RunStmts(ss, ch).flow.Falls?
    decreases ss
  {
    if |ss| == 0 {
      ch := [];
    } else if |ss| > 1 {
      assert ss[1..][|ss[1..]| - 1] == ss[|ss| - 1];
      var first :| RunStmt(ss[0], first).flow.Falls?;
      var more := StmtsFall(ss[1..]);
      ch := RunOn(ss, first, more);
    } else {
      ch := LastFalls(ss[0]);
      assert RunStmts(ss[1..], RunStmt(ss[0], ch).rest).flow.Falls?;
    }
  }

  lemma {:induction false} LastFalls(s: Stmt) returns (ch: seq<bool>)
    requires LiveStmt(s) && !AlwaysExits(Block([s], []))
    ensures RunStmt(s, ch).flow.Falls?
    decreases s
  {
    match s
    case If(_, thn, els) =>
      if els.None? {
        ch := [false];
      } else if !AlwaysExits(thn) {
        var arm := FallsThrough(thn);
        ch := [true] + arm;
        Tail(true, arm);
      } else {
        var arm := FallsThrough(els.value);
        ch := [false] + arm;
        Tail(false, arm);
      }
    case While(_, _) => ch := [false];
    case Nested(b) => ch := FallsThrough(b);
    case _ => ch := [];
  }

  /** On a block without dead code, "always exits" means what it says. */
  lemma AlwaysExitsMeans(b: Block)
    requires LiveBlock(b)
    ensures AlwaysExits(b) <==> forall ch :: !RunBlock(b, ch).flow.Falls?
  {
    if AlwaysExits(b) {
      forall ch ensures !RunBlock(b, ch).flow.Falls? { ExitsDontFall(b, ch); }
    } else {
      var ch := FallsThrough(b);
    }
  }

  // ------------------------------------------------------------------- expressions

  /** Is `x` borrowed somewhere inside `e`? */
  predicate Lends(e: Expr, x: Local)
    decreases e
  {
    match e
    case Borrow(y) => y == x
    case Call(_, args) => exists i | 0 <= i < |args| :: Lends(args[i], x)
    case _ => false
  }

  /** No call borrows in one argument what an earlier argument hands it by value. */
  predicate NoLateBorrow(e: Expr)
    decreases e
  {
    e.Call? ==> NoLateBorrows(e.args)
  }

  predicate NoLateBorrows(args: seq<Expr>)
    decreases args
  {
    |args| == 0 ||
    (NoLateBorrow(args[0]) && NoLateBorrows(args[1..]) &&
     (args[0].Use? ==> forall j | 0 < j < |args| :: !Lends(args[j], args[0].x)))
  }

  lemma {:induction false} GoneEval(e: Expr, gone: set<Local>)
    ensures Gone(gone, EvalEvents(e)) == gone + MovedIn(e)
    ensures e.Call? ==> Gone(gone, CallEvents(e.args)) == gone + MovedIn(e)
    decreases e, 1
  {
    match e
    case Lit => assert gone + {} == gone;
    case Use(x) => One(gone, Read(x)); assert gone + {} == gone;
    case Borrow(x) => One(gone, Read(x)); assert gone + {} == gone;
    case Call(owns, args) =>
      GoneArgs(args, gone);
      GoneHandover(args, gone + Early(args));
      EarlyAndLate(args);
      assert gone + Early(args) + Late(args) == gone + MovedIn(e);
      StaleConcat(gone, ArgEvents(args), Handover(args));
      StaleConcat(gone, CallEvents(args), [Temp]);
      One(gone + MovedIn(e), Temp);
      assert CallEvents(args) + [] == CallEvents(args);
  }

  lemma {:induction false} GoneArgs(args: seq<Expr>, gone: set<Local>)
    ensures Gone(gone, ArgEvents(args)) == gone + Early(args)
    decreases args, 0
  {
    if |args| > 0 {
      GoneEval(args[0], gone);
      GoneArgs(args[1..], gone + MovedIn(args[0]));
      StaleConcat(gone, EvalEvents(args[0]), ArgEvents(args[1..]));
      assert gone + MovedIn(args[0]) + Early(args[1..]) == gone + Early(args);
    } else {
      assert gone + {} == gone;
    }
  }

  lemma {:induction false} GoneHandover(args: seq<Expr>, gone: set<Local>)
    ensures Gone(gone, Handover(args)) == gone + Late(args)
    decreases args
  {
    if |args| > 0 {
      var first := if args[0].Use? then {args[0].x} else {};
      GoneHandover(args[1..], gone + first);
      assert gone + first + Late(args[1..]) == gone + Late(args);
      if args[0].Use? {
        One(gone, GiveAway(args[0].x));
        StaleConcat(gone, [GiveAway(args[0].x)], Handover(args[1..]));
      } else {
        assert gone + {} == gone && Handover(args) == Handover(args[1..]);
      }
    } else {
      assert gone + {} == gone;
    }
  }

  /** A call mentions a local by lending it or by giving it away. */
  lemma {:induction false} Mentioned(e: Expr, x: Local)
    requires e.Call? && Mentions(e, x)
    ensures Lends(e, x) || x in MovedIn(e)
    decreases e
  {
    MentionedArgs(e.args, x);
  }

  lemma {:induction false} MentionedArgs(args: seq<Expr>, x: Local)
    requires exists i | 0 <= i < |args| :: Mentions(args[i], x)
    ensures (exists i | 0 <= i < |args| :: Lends(args[i], x)) || x in MovedInArgs(args)
    decreases args
  {
    if Mentions(args[0], x) {
      if args[0].Call? { Mentioned(args[0], x); }
    } else {
      var i :| 0 <= i < |args| && Mentions(args[i], x);
      assert args[i] == args[1..][i - 1];
      MentionedArgs(args[1..], x);
      if j :| 0 <= j < |args[1..]| && Lends(args[1..][j], x) { assert Lends(args[j + 1], x); }
    }
  }

  /** What an expression does not mention does not matter to it. */
  lemma {:induction false} Unmentioned(e: Expr, m: set<Local>, n: set<Local>)
    requires QuietExpr(e, m) && forall x | x in n :: !Mentions(e, x)
    ensures QuietExpr(e, m + n)
    decreases e
  {
    if e.Call? { UnmentionedArgs(e.args, m, n); }
  }

  lemma {:induction false} UnmentionedArgs(args: seq<Expr>, m: set<Local>, n: set<Local>)
    requires QuietArgs(args, m) && forall x, i | x in n && 0 <= i < |args| :: !Mentions(args[i], x)
    ensures QuietArgs(args, m + n)
    decreases args
  {
    if |args| > 0 {
      ArgsSplit(args, m);
      ArgsSplit(args, m + n);
      Unmentioned(args[0], m, n);
      UnmentionedArgs(args[1..], ArgMoved(args[0], m), n);
      assert ArgMoved(args[0], m + n) == ArgMoved(args[0], m) + n;
    }
  }

  /** Clean evaluation, and no late borrow: then the checker has nothing to report. */
  lemma {:induction false} CleanIsQuiet(e: Expr, gone: set<Local>)
    requires NoLateBorrow(e) && NoStaleUse(gone, EvalEvents(e))
    ensures QuietExpr(e, gone)
    decreases e, 1
  {
    match e
    case Lit =>
    case Use(x) => One(gone, Read(x));
    case Borrow(x) => One(gone, Read(x));
    case Call(owns, args) =>
      if owns { StaleConcat(gone, CallEvents(args), [Temp]); } else { assert CallEvents(args) + [] == CallEvents(args); }
      CallIsQuiet(args, gone);
  }

  lemma {:induction false} CallIsQuiet(args: seq<Expr>, gone: set<Local>)
    requires NoLateBorrows(args) && NoStaleUse(gone, CallEvents(args))
    ensures QuietArgs(args, gone)
    decreases args, 1
  {
    StaleConcat(gone, ArgEvents(args), Handover(args));
    GoneArgs(args, gone);
    assert gone + {} == gone && gone + Early(args) + {} == gone + Early(args);
    ArgsAreQuiet(args, gone, {});
  }

  /** `pend`: handed over at the end of the call by arguments already evaluated. */
  lemma {:induction false} ArgsAreQuiet(args: seq<Expr>, gone: set<Local>, pend: set<Local>)
    requires NoLateBorrows(args) && forall x, i | x in pend && 0 <= i < |args| :: !Lends(args[i], x)
    requires NoStaleUse(gone, ArgEvents(args)) && NoStaleUse(gone + Early(args) + pend, Handover(args))
    requires pend !! gone + Early(args)
    ensures QuietArgs(args, gone + pend)
    decreases args, 0
  {
    if |args| > 0 {
      var e, rest := args[0], args[1..];
      StaleConcat(gone, EvalEvents(e), ArgEvents(rest));
      GoneEval(e, gone);
      CleanIsQuiet(e, gone);
      ArgsSplit(args, gone + pend);
      assert Early(args) == MovedIn(e) + Early(rest);
      assert gone + MovedIn(e) + Early(rest) + pend == gone + Early(args) + pend;
      if e.Use? {
        One(gone, Read(e.x));
        One(gone + Early(args) + pend, GiveAway(e.x));
        StaleConcat(gone + Early(args) + pend, [GiveAway(e.x)], Handover(rest));
        assert gone + Early(args) + pend + {e.x} == gone + Early(rest) + (pend + {e.x});
        ArgsAreQuiet(rest, gone, pend + {e.x});
        assert ArgMoved(e, gone + pend) == gone + (pend + {e.x});
      } else {
        forall x | x in pend ensures !Mentions(e, x) {
          assert !Lends(args[0], x);
          if e.Call? && Mentions(e, x) { Mentioned(e, x); }
        }
        Unmentioned(e, gone, pend);
        assert Handover(args) == Handover(rest);
        ArgsAreQuiet(rest, gone + MovedIn(e), pend);
        assert ArgMoved(e, gone + pend) == gone + MovedIn(e) + pend;
      }
    }
  }

  /** What is moved is not mentioned by an expression the checker passes. */
  lemma {:induction false} QuietUnmentioned(e: Expr, m: set<Local>, x: Local)
    requires QuietExpr(e, m) && x in m
    ensures !Mentions(e, x) && !Lends(e, x)
    decreases e
  {
    if e.Call? { QuietArgsUnmentioned(e.args, m, x); }
  }

  lemma {:induction false} QuietArgsUnmentioned(args: seq<Expr>, m: set<Local>, x: Local)
    requires QuietArgs(args, m) && x in m
    ensures forall i | 0 <= i < |args| :: !Mentions(args[i], x) && !Lends(args[i], x)
    decreases args
  {
    if |args| > 0 {
      ArgsSplit(args, m);
      QuietUnmentioned(args[0], m, x);
      QuietArgsUnmentioned(args[1..], ArgMoved(args[0], m), x);
      forall i | 0 < i < |args| ensures !Mentions(args[i], x) && !Lends(args[i], x) { assert args[i] == args[1..][i - 1]; }
    }
  }

  lemma {:induction false} QuietNoLateBorrow(e: Expr, m: set<Local>)
    requires QuietExpr(e, m)
    ensures NoLateBorrow(e)
    decreases e
  {
    if e.Call? { QuietNoLateBorrows(e.args, m); }
  }

  lemma {:induction false} QuietNoLateBorrows(args: seq<Expr>, m: set<Local>)
    requires QuietArgs(args, m)
    ensures NoLateBorrows(args)
    decreases args
  {
    if |args| > 0 {
      ArgsSplit(args, m);
      var next := ArgMoved(args[0], m);
      QuietNoLateBorrow(args[0], m);
      QuietNoLateBorrows(args[1..], next);
      if args[0].Use? {
        QuietArgsUnmentioned(args[1..], next, args[0].x);
        forall j | 0 < j < |args| ensures !Lends(args[j], args[0].x) { assert args[j] == args[1..][j - 1]; }
      }
    }
  }

  // ----------------------------------------------------------------- statements

  /** Straight-line code and branches: no loops and jumps. */
  predicate LoopFree(s: Stmt)
    decreases s
  {
    match s
    case If(_, thn, els) => LoopFreeBlock(thn) && (els.Some? ==> LoopFreeBlock(els.value))
    case Nested(b) => LoopFreeBlock(b)
    case While(_, _) => false
    case Break(_) => false
    case Continue(_) => false
    case _ => true
  }

  predicate LoopFreeStmts(ss: seq<Stmt>)
    decreases ss
  {
    |ss| == 0 || (LoopFree(ss[0]) && LoopFreeStmts(ss[1..]))
  }

  predicate LoopFreeBlock(b: Block)
    decreases b
  {
    LoopFreeStmts(b.stmts)
  }

  /** No late borrow in any expression of the statement. */
  predicate Lawful(s: Stmt)
    decreases s
  {
    match s
    case Let(_, e) => NoLateBorrow(e)
    case Assign(_, e, _) => NoLateBorrow(e)
    case Do(e) => NoLateBorrow(e)
    case Return(v, _) => v.Some? ==> NoLateBorrow(v.value)
    case If(c, thn, els) => NoLateBorrow(c) && LawfulBlock(thn) && (els.Some? ==> LawfulBlock(els.value))
    case While(c, body) => NoLateBorrow(c) && LawfulBlock(body)
    case Nested(b) => LawfulBlock(b)
    case _ => true
  }

  predicate LawfulStmts(ss: seq<Stmt>)
    decreases ss
  {
    |ss| == 0 || (Lawful(ss[0]) && LawfulStmts(ss[1..]))
  }

  predicate LawfulBlock(b: Block)
    decreases b
  {
    LawfulStmts(b.stmts)
  }

  /** Storing a value: what it leaves behind, and that its evaluation was clean if it was. */
  lemma BindGone(x: Local, e: Expr, gone: set<Local>)
    ensures Owns(e) ==> Gone(gone, BindEvents(x, e)) == gone + MovedByArg(e) - {x}
    ensures !Owns(e) ==> Gone(gone, BindEvents(x, e)) == gone + MovedByArg(e)
    ensures NoStaleUse(gone, BindEvents(x, e)) ==> NoStaleUse(gone, EvalEvents(e))
  {
    GoneEval(e, gone);
    match e
    case Use(y) =>
      One(gone, Read(y));
      One(gone, Hand(y, x));
      StaleConcat(gone, [Read(y)], [Hand(y, x)]);
      assert [Read(y)] + [Hand(y, x)] == BindEvents(x, e);
    case Call(owns, args) =>
      if owns {
        One(gone + MovedIn(e), Fresh(x));
        One(gone + MovedIn(e), Temp);
        StaleConcat(gone, CallEvents(args), [Fresh(x)]);
        StaleConcat(gone, CallEvents(args), [Temp]);
      }
    case _ =>
  }

  lemma AssignGone(x: Local, e: Expr, dropOld: bool, gone: set<Local>)
    requires Owns(e)
    ensures Gone(gone, AssignEvents(x, e, dropOld)) == gone + MovedByArg(e) - {x}
    ensures NoStaleUse(gone, AssignEvents(x, e, dropOld)) ==> NoStaleUse(gone, EvalEvents(e))
  {
    var prior := if dropOld then [Drop(x)] else [];
    BindGone(x, e, gone);
    GoneEval(e, gone);
    One(gone, Drop(x));
    One(gone + MovedIn(e), Drop(x));
    if !Mentions(e, x) {
      StaleConcat(gone, prior, BindEvents(x, e));
    } else {
      match e
      case Use(y) =>
        One(gone, Read(y));
        One(gone, Hand(y, x));
        StaleConcat(gone, [Read(y)] + prior, [Hand(y, x)]);
        StaleConcat(gone, [Read(y)], prior);
      case Call(true, args) =>
        One(gone + MovedIn(e), Fresh(x));
        One(gone + MovedIn(e), Temp);
        StaleConcat(gone, CallEvents(args) + prior, [Fresh(x)]);
        StaleConcat(gone, CallEvents(args), prior);
        StaleConcat(gone, CallEvents(args), [Temp]);
    }
  }

  lemma ReturnRead(v: Option<Expr>, drops: seq<Local>, gone: set<Local>)
    requires v.Some? && NoStaleUse(gone, ReturnEvents(v, drops))
    ensures NoStaleUse(gone, EvalEvents(v.value))
  {
    var e := v.value;
    if e.Use? {
      assert ReturnEvents(v, drops) == [Read(e.x)] + ([GiveAway(e.x)] + DropEvents(drops));
      StaleConcat(gone, [Read(e.x)], [GiveAway(e.x)] + DropEvents(drops));
    } else {
      StaleConcat(gone, EvalEvents(e), DropEvents(drops));
    }
  }

  // -------------------------------------------- what the checker holds for moved, is

  /** If the checker holds a visible local for moved behind a statement, some run that
      gets there has given it away. */
  lemma {:induction false} StmtReached(s: Stmt, vis: set<Local>, gone: set<Local>, x: Local) returns (ch: seq<bool>)
    requires StmtScoped(s, vis, false) && LoopFree(s) && LiveStmt(s) && CanFall(s)
    requires x in vis && x in WalkStmt(s, Look(gone, 0)).moved
    ensures RunStmt(s, ch).flow.Falls? && x in Gone(gone, RunStmt(s, ch).events)
    decreases s
  {
    var k := Look(gone, 0);
    ch := [];
    match s
    case Let(y, e) =>
      BindGone(y, e, gone);
      WalkExprMoves(e, k);
    case Assign(y, e, dropOld) =>
      AssignGone(y, e, dropOld, gone);
      WalkExprMoves(e, k);
    case Do(e) =>
      GoneEval(e, gone);
      WalkExprMoves(e, k);
    case If(_, _, _) => ch := IfReached(s, vis, gone, x);
    case Nested(b) =>
      var some :| RunStmt(s, some).flow.Falls?;
      assert RunBlock(b, some).flow.Falls?;
      ch := BlockReached(b, vis, gone, x);
  }

  lemma {:induction false} IfReached(s: Stmt, vis: set<Local>, gone: set<Local>, x: Local) returns (ch: seq<bool>)
    requires s.If? && StmtScoped(s, vis, false) && LoopFree(s) && LiveStmt(s) && CanFall(s)
    requires x in vis && x in WalkStmt(s, Look(gone, 0)).moved
    ensures RunStmt(s, ch).flow.Falls? && x in Gone(gone, RunStmt(s, ch).events)
    decreases s, 0
  {
    var here := gone + MovedIn(s.cond);
    var snap := WalkExpr(s.cond, Look(gone, 0));
    var t := WalkBlock(s.thn, snap);
    WalkExprMoves(s.cond, Look(gone, 0));
    GoneEval(s.cond, gone);
    BlockFrom(s.thn, snap);
    if s.els.Some? { BlockFrom(s.els.value, Look(snap.moved, t.errors)); }
    if AlwaysExits(s.thn) && s.els.Some? && AlwaysExits(s.els.value) {
      var some :| RunStmt(s, some).flow.Falls?;
      if |some| > 0 && some[0] { ExitsDontFall(s.thn, some[1..]); }
      if |some| > 0 && !some[0] { ExitsDontFall(s.els.value, some[1..]); }
      assert false;
    } else if !AlwaysExits(s.thn) && x in t.moved {
      var fall := FallsThrough(s.thn);
      var arm := BlockReached(s.thn, vis, here, x);
      ch := [true] + arm;
      Tail(true, arm);
      StaleConcat(gone, EvalEvents(s.cond), RunBlock(s.thn, arm).events);
    } else if s.els.Some? {
      var fall := FallsThrough(s.els.value);
      var arm := BlockReached(s.els.value, vis, here, x);
      ch := [false] + arm;
      Tail(false, arm);
      StaleConcat(gone, EvalEvents(s.cond), RunBlock(s.els.value, arm).events);
    } else {
      ch := [false];
    }
  }

  lemma {:induction false} StmtsReached(ss: seq<Stmt>, vis: set<Local>, gone: set<Local>, x: Local) returns (ch: seq<bool>)
    requires StmtsScoped(ss, vis, false) && LoopFreeStmts(ss) && LiveStmts(ss)
    requires exists c :: RunStmts(ss, c).flow.Falls?
    requires x in vis && x in WalkStmts(ss, Look(gone, 0)).moved
    ensures RunStmts(ss, ch).flow.Falls? && x in Gone(gone, RunStmts(ss, ch).events)
    decreases ss
  {
    if |ss| == 0 {
      ch := [];
    } else {
      var c :| RunStmts(ss, c).flow.Falls?;
      var next := WalkStmt(ss[0], Look(gone, 0));
      var first := c;
      if x in next.moved { first := StmtReached(ss[0], vis, gone, x); }
      var now := Gone(gone, RunStmt(ss[0], first).events);
      StmtsFrom(ss[1..], next);
      StmtsTransfer(ss[1..], Look(next.moved, 0), x);
      StmtsTransfer(ss[1..], Look(now, 0), x);
      var later := StmtsReached(ss[1..], After(ss[0], vis), now, x);
      ch := RunOn(ss, first, later);
      StaleConcat(gone, RunStmt(ss[0], first).events, RunStmts(ss[1..], later).events);
    }
  }

  lemma {:induction false} BlockReached(b: Block, vis: set<Local>, gone: set<Local>, x: Local) returns (ch: seq<bool>)
    requires BlockScoped(b, vis, false) && LoopFreeBlock(b) && LiveBlock(b)
    requires exists c :: RunBlock(b, c).flow.Falls?
    requires x in vis && x in WalkBlock(b, Look(gone, 0)).moved
    ensures RunBlock(b, ch).flow.Falls? && x in Gone(gone, RunBlock(b, ch).events)
    decreases b
  {
    var c :| RunBlock(b, c).flow.Falls?;
    assert RunStmts(b.stmts, c).flow.Falls?;
    ch := StmtsReached(b.stmts, vis, gone, x);
    var p := RunStmts(b.stmts, ch);
    DropsTouchNothing(Gone(gone, p.events), b.heapToFree);
    StaleConcat(gone, p.events, DropEvents(b.heapToFree));
  }

  // ------------------------------------------------ what the checker reports, happens

  /** Diagnostics concern the locals moved one by one. */
  lemma {:induction false} QuietEach(ss: seq<Stmt>, m: set<Local>)
    requires QuietStmts(ss, {}) && forall x | x in m :: QuietStmts(ss, {x})
    ensures QuietStmts(ss, m)
    decreases m
  {
    if m != {} {
      var x :| x in m;
      QuietEach(ss, m - {x});
      StmtsUnion(ss, m - {x}, {x});
      assert m - {x} + {x} == m;
    }
  }

  /** A local out of sight causes none. */
  lemma {:induction false} UnseenStmt(s: Stmt, vis: set<Local>, x: Local)
    requires StmtScoped(s, vis, false) && LoopFree(s) && x !in vis && QuietStmt(s, {})
    ensures QuietStmt(s, {x})
    ensures x !in After(s, vis) ==> WalkStmt(s, Look({x}, 0)).moved <= WalkStmt(s, Look({}, 0)).moved + {x}
    ensures x in After(s, vis) ==> WalkStmt(s, Look({x}, 0)).moved <= WalkStmt(s, Look({}, 0)).moved
    decreases s
  {
    forall y | y in WalkStmt(s, Look({x}, 0)).moved ensures y in WalkStmt(s, Look({}, 0)).moved + {x} {
      StmtTransfer(s, Look({x}, 0), y);
      StmtTransfer(s, Look({}, 0), y);
    }
    match s
    case Let(y, e) => UnseenExpr(e, vis, x); BindQuiet(e, {}); BindQuiet(e, {x}); WalkExprMoves(e, Look({x}, 0)); MovedInScope(e, vis);
    case Assign(y, e, _) => UnseenExpr(e, vis, x); BindQuiet(e, {}); BindQuiet(e, {x});
    case Do(e) => UnseenExpr(e, vis, x);
    case Return(v, _) => if v.Some? { UnseenExpr(v.value, vis, x); }
    case If(c, thn, els) =>
      IfSplit(s, {});
      IfSplit(s, {x});
      UnseenExpr(c, vis, x);
      assert {} + MovedIn(c) == MovedIn(c);
      UnseenBlock(thn, vis, x, MovedIn(c));
      if els.Some? { UnseenBlock(els.value, vis, x, MovedIn(c)); }
    case Nested(b) =>
      UnseenBlock(b, vis, x, {});
      assert {x} + {} == {x};
  }

  lemma UnseenExpr(e: Expr, vis: set<Local>, x: Local)
    requires ExprScoped(e, vis) && x !in vis && QuietExpr(e, {})
    ensures QuietExpr(e, {x})
  {
    Unspoken(e, vis, x);
    Unmentioned(e, {}, {x});
    assert {} + {x} == {x};
  }

  lemma {:induction false} Unspoken(e: Expr, vis: set<Local>, x: Local)
    requires ExprScoped(e, vis) && x !in vis
    ensures !Mentions(e, x)
    decreases e
  {
    if e.Call? { UnspokenArgs(e.args, vis, x); }
  }

  lemma {:induction false} UnspokenArgs(args: seq<Expr>, vis: set<Local>, x: Local)
    requires ArgsScoped(args, vis) && x !in vis
    ensures forall i | 0 <= i < |args| :: !Mentions(args[i], x)
    decreases args
  {
    if |args| > 0 {
      Unspoken(args[0], vis, x);
      UnspokenArgs(args[1..], vis, x);
      forall i | 0 < i < |args| ensures !Mentions(args[i], x) { assert args[i] == args[1..][i - 1]; }
    }
  }

  lemma {:induction false} UnseenBlock(b: Block, vis: set<Local>, x: Local, m: set<Local>)
    requires BlockScoped(b, vis, false) && LoopFreeBlock(b) && x !in vis && QuietBlock(b, m)
    ensures QuietBlock(b, {x} + m)
    decreases b
  {
    StmtsUnion(b.stmts, {}, m);
    assert {} + m == m;
    UnseenStmts(b.stmts, vis, x);
    StmtsUnion(b.stmts, {x}, m);
  }

  lemma {:induction false} UnseenStmts(ss: seq<Stmt>, vis: set<Local>, x: Local)
    requires StmtsScoped(ss, vis, false) && LoopFreeStmts(ss) && x !in vis && QuietStmts(ss, {})
    ensures QuietStmts(ss, {x})
    decreases ss
  {
    if |ss| > 0 {
      StmtsSplit(ss, {});
      StmtsSplit(ss, {x});
      UnseenStmt(ss[0], vis, x);
      var plain, with := WalkStmt(ss[0], Look({}, 0)).moved, WalkStmt(ss[0], Look({x}, 0)).moved;
      if x !in After(ss[0], vis) {
        StmtsUnion(ss[1..], {}, plain);
        assert {} + plain == plain;
        UnseenStmts(ss[1..], After(ss[0], vis), x);
        StmtsUnion(ss[1..], plain, {x});
        QuietLess(ss[1..], plain + {x}, with);
      } else {
        QuietLess(ss[1..], plain, with);
      }
    }
  }

  lemma QuietLess(ss: seq<Stmt>, m: set<Local>, n: set<Local>)
    requires n <= m && QuietStmts(ss, m)
    ensures QuietStmts(ss, n)
  {
    StmtsUnion(ss, m, n);
    assert m + n == m;
  }

  /** A diagnostic on a statement is a stale use in some run of it. */
  lemma {:induction false} StmtStale(s: Stmt, vis: set<Local>, gone: set<Local>) returns (ch: seq<bool>)
    requires StmtScoped(s, vis, false) && LoopFree(s) && LiveStmt(s) && Lawful(s) && !QuietStmt(s, gone)
    ensures !NoStaleUse(gone, RunStmt(s, ch).events)
    decreases s
  {
    ch := [];
    match s
    case Let(x, e) =>
      BindQuiet(e, gone);
      BindGone(x, e, gone);
      if NoStaleUse(gone, EvalEvents(e)) { CleanIsQuiet(e, gone); }
    case Assign(x, e, dropOld) =>
      BindQuiet(e, gone);
      AssignGone(x, e, dropOld, gone);
      if NoStaleUse(gone, EvalEvents(e)) { CleanIsQuiet(e, gone); }
    case Do(e) =>
      if NoStaleUse(gone, EvalEvents(e)) { CleanIsQuiet(e, gone); }
    case Return(v, drops) =>
      if NoStaleUse(gone, ReturnEvents(v, drops)) {
        ReturnRead(v, drops, gone);
        CleanIsQuiet(v.value, gone);
      }
    case If(_, _, _) => ch := IfStale(s, vis, gone);
    case Nested(b) => ch := BlockStale(b, vis, gone);
  }

  lemma {:induction false} IfStale(s: Stmt, vis: set<Local>, gone: set<Local>) returns (ch: seq<bool>)
    requires s.If? && StmtScoped(s, vis, false) && LoopFree(s) && LiveStmt(s) && Lawful(s) && !QuietStmt(s, gone)
    ensures !NoStaleUse(gone, RunStmt(s, ch).events)
    decreases s, 0
  {
    var here := gone + MovedIn(s.cond);
    IfSplit(s, gone);
    GoneEval(s.cond, gone);
    if !NoStaleUse(gone, EvalEvents(s.cond)) {
      ch := [];
    } else {
      CleanIsQuiet(s.cond, gone);
      if !QuietBlock(s.thn, here) {
        var arm := BlockStale(s.thn, vis, here);
        ch := [true] + arm;
        Tail(true, arm);
        StaleConcat(gone, EvalEvents(s.cond), RunBlock(s.thn, arm).events);
      } else {
        var arm := BlockStale(s.els.value, vis, here);
        ch := [false] + arm;
        Tail(false, arm);
        StaleConcat(gone, EvalEvents(s.cond), RunBlock(s.els.value, arm).events);
      }
    }
  }

  lemma {:induction false} StmtsStale(ss: seq<Stmt>, vis: set<Local>, gone: set<Local>) returns (ch: seq<bool>)
    requires StmtsScoped(ss, vis, false) && LoopFreeStmts(ss) && LiveStmts(ss) && LawfulStmts(ss)
    requires !QuietStmts(ss, gone)
    ensures !NoStaleUse(gone, RunStmts(ss, ch).events)
    decreases ss
  {
    StmtsSplit(ss, gone);
    if !QuietStmt(ss[0], gone) {
      ch := StmtStale(ss[0], vis, gone);
      var p := RunStmt(ss[0], ch);
      if p.flow.Falls? { StaleConcat(gone, p.events, RunStmts(ss[1..], p.rest).events); }
    } else {
      var first := ToTrouble(ss, vis, gone);
      var now := Gone(gone, RunStmt(ss[0], first).events);
      var later := StmtsStale(ss[1..], After(ss[0], vis), now);
      ch := RunOn(ss, first, later);
      StaleConcat(gone, RunStmt(ss[0], first).events, RunStmts(ss[1..], later).events);
    }
  }

  /** A way through the first statement after which the others are still reported. */
  lemma {:induction false} ToTrouble(ss: seq<Stmt>, vis: set<Local>, gone: set<Local>) returns (first: seq<bool>)
    requires |ss| > 0 && StmtsScoped(ss, vis, false) && LoopFreeStmts(ss) && LiveStmts(ss)
    requires !QuietStmts(ss[1..], WalkStmt(ss[0], Look(gone, 0)).moved)
    ensures RunStmt(ss[0], first).flow.Falls?
    ensures !QuietStmts(ss[1..], Gone(gone, RunStmt(ss[0], first).events))
    decreases ss, 0
  {
    var rest, moved, seen := ss[1..], WalkStmt(ss[0], Look(gone, 0)).moved, After(ss[0], vis);
    assert |rest| > 0;
    first :| RunStmt(ss[0], first).flow.Falls?;
    if QuietStmts(rest, {}) {
      if forall x | x in moved :: QuietStmts(rest, {x}) { QuietEach(rest, moved); }
      var x :| x in moved && !QuietStmts(rest, {x});
      if x !in seen { UnseenStmts(rest, seen, x); }
      if x !in vis { WalkExprMoves(ss[0].init, Look(gone, 0)); MovedInScope(ss[0].init, vis); }
      first := StmtReached(ss[0], vis, gone, x);
      var now := Gone(gone, RunStmt(ss[0], first).events);
      if QuietStmts(rest, now) { QuietLess(rest, now, {x}); }
    } else {
      var now := Gone(gone, RunStmt(ss[0], first).events);
      if QuietStmts(rest, now) { QuietLess(rest, now, {}); }
    }
  }

  lemma {:induction false} BlockStale(b: Block, vis: set<Local>, gone: set<Local>) returns (ch: seq<bool>)
    requires BlockScoped(b, vis, false) && LoopFreeBlock(b) && LiveBlock(b) && LawfulBlock(b) && !QuietBlock(b, gone)
    ensures !NoStaleUse(gone, RunBlock(b, ch).events)
    decreases b
  {
    ch := StmtsStale(b.stmts, vis, gone);
    var p := RunStmts(b.stmts, ch);
    StaleConcat(gone, p.events, DropEvents(b.heapToFree));
  }

  // ------------------------------------------------------- what is clean is accepted

  lemma {:induction false} QuietLawful(s: Stmt, m: set<Local>)
    requires LoopFree(s) && QuietStmt(s, m)
    ensures Lawful(s)
    decreases s
  {
    match s
    case Let(_, e) => BindQuiet(e, m); QuietNoLateBorrow(e, m);
    case Assign(_, e, _) => BindQuiet(e, m); QuietNoLateBorrow(e, m);
    case Do(e) => QuietNoLateBorrow(e, m);
    case Return(v, _) => if v.Some? { QuietNoLateBorrow(v.value, m); }
    case If(c, thn, els) =>
      IfSplit(s, m);
      QuietNoLateBorrow(c, m);
      QuietStmtsLawful(thn.stmts, m + MovedIn(c));
      if els.Some? { QuietStmtsLawful(els.value.stmts, m + MovedIn(c)); }
    case Nested(b) =>
      assert WalkBlock(b, Look(m, 0)) == WalkStmts(b.stmts, Look(m, 0));
      QuietStmtsLawful(b.stmts, m);
  }

  lemma {:induction false} QuietStmtsLawful(ss: seq<Stmt>, m: set<Local>)
    requires LoopFreeStmts(ss) && QuietStmts(ss, m)
    ensures LawfulStmts(ss)
    decreases ss
  {
    if |ss| > 0 {
      StmtsSplit(ss, m);
      QuietLawful(ss[0], m);
      QuietStmtsLawful(ss[1..], WalkStmt(ss[0], Look(m, 0)).moved);
    }
  }

  /** The locals a piece declares, and that it declares each of them once. */
  function Declared(s: Stmt): set<Local>
    decreases s
  {
    match s
    case Let(x, _) => {x}
    case If(_, thn, els) => DeclaredIn(thn.stmts) + (if els.Some? then DeclaredIn(els.value.stmts) else {})
    case While(_, body) => DeclaredIn(body.stmts)
    case Nested(b) => DeclaredIn(b.stmts)
    case _ => {}
  }

  function DeclaredIn(ss: seq<Stmt>): set<Local>
    decreases ss
  {
    if |ss| == 0 then {} else Declared(ss[0]) + DeclaredIn(ss[1..])
  }

  predicate Once(s: Stmt)
    decreases s
  {
    match s
    case If(_, thn, els) =>
      OnceIn(thn.stmts) &&
      (els.Some? ==> OnceIn(els.value.stmts) && DeclaredIn(thn.stmts) !! DeclaredIn(els.value.stmts))
    case While(_, body) => OnceIn(body.stmts)
    case Nested(b) => OnceIn(b.stmts)
    case _ => true
  }

  predicate OnceIn(ss: seq<Stmt>)
    decreases ss
  {
    |ss| == 0 || (Once(ss[0]) && OnceIn(ss[1..]) && Declared(ss[0]) !! DeclaredIn(ss[1..]))
  }

  /** Whatever is held for moved was visible, declared on the way, or moved before. */
  lemma {:induction false} StmtMoves(s: Stmt, vis: set<Local>, m: set<Local>)
    requires StmtScoped(s, vis, false) && LoopFree(s)
    ensures WalkStmt(s, Look(m, 0)).moved <= m + vis + Declared(s)
    ensures After(s, vis) <= vis + Declared(s)
    decreases s
  {
    var k := Look(m, 0);
    match s
    case Let(_, e) => WalkExprMoves(e, k); MovedInScope(e, vis);
    case Assign(_, e, _) => WalkExprMoves(e, k); MovedInScope(e, vis);
    case Do(e) => WalkExprMoves(e, k); MovedInScope(e, vis);
    case Return(v, _) => if v.Some? { WalkExprMoves(v.value, k); MovedInScope(v.value, vis); }
    case If(c, thn, els) =>
      WalkExprMoves(c, k);
      MovedInScope(c, vis);
      var snap := WalkExpr(c, k);
      var t := WalkBlock(thn, snap);
      BlockFrom(thn, snap);
      StmtsMove(thn.stmts, vis, snap.moved);
      if els.Some? {
        BlockFrom(els.value, Look(snap.moved, t.errors));
        StmtsMove(els.value.stmts, vis, snap.moved);
      }
    case Nested(b) => StmtsMove(b.stmts, vis, m);
  }

  lemma {:induction false} StmtsMove(ss: seq<Stmt>, vis: set<Local>, m: set<Local>)
    requires StmtsScoped(ss, vis, false) && LoopFreeStmts(ss)
    ensures WalkStmts(ss, Look(m, 0)).moved <= m + vis + DeclaredIn(ss)
    decreases ss
  {
    if |ss| > 0 {
      StmtMoves(ss[0], vis, m);
      var next := WalkStmt(ss[0], Look(m, 0));
      StmtsFrom(ss[1..], next);
      StmtsMove(ss[1..], After(ss[0], vis), next.moved);
    }
  }

  /** A scoped, loop-free piece is one the run lemmas speak about. */
  lemma {:induction false} ScopedIsStraight(s: Stmt, vis: set<Local>, m: set<Local>)
    requires StmtScoped(s, vis, false) && LoopFree(s) && Once(s) && (m + vis) !! Declared(s)
    ensures StraightStmt(s, m)
    decreases s
  {
    match s
    case Let(_, e) => MovedInScope(e, vis);
    case If(c, thn, els) =>
      MovedInScope(c, vis);
      ScopedAreStraight(thn.stmts, vis, m + MovedIn(c));
      if els.Some? { ScopedAreStraight(els.value.stmts, vis, m + MovedIn(c)); }
    case Nested(b) => ScopedAreStraight(b.stmts, vis, m);
    case _ =>
  }

  lemma {:induction false} ScopedAreStraight(ss: seq<Stmt>, vis: set<Local>, m: set<Local>)
    requires StmtsScoped(ss, vis, false) && LoopFreeStmts(ss) && OnceIn(ss) && (m + vis) !! DeclaredIn(ss)
    ensures StraightStmts(ss, m)
    decreases ss
  {
    if |ss| > 0 {
      ScopedIsStraight(ss[0], vis, m);
      StmtMoves(ss[0], vis, m);
      ScopedAreStraight(ss[1..], After(ss[0], vis), WalkStmt(ss[0], Look(m, 0)).moved);
    }
  }

  /** Without loops and dead code the checker accepts a body exactly when no run of it reads
      or gives away a local it gave away before and has not refilled, and no call borrows
      what an earlier argument of it takes. */
  lemma AcceptsExactly(body: Block)
    requires BodyScoped(body) && OnceIn(body.stmts) && LoopFreeBlock(body) && LiveBlock(body)
    ensures Accepts(body) <==> LawfulBlock(body) && forall ch :: NoStaleUse({}, RunBlock(body, ch).events)
  {
    if Accepts(body) {
      QuietStmtsLawful(body.stmts, {});
      ScopedAreStraight(body.stmts, {}, {});
      forall ch ensures NoStaleUse({}, RunBlock(body, ch).events) { BlockClean(body, ch, {}, {}); }
    } else if LawfulBlock(body) {
      var ch := BlockStale(body, {}, {});
    }
  }
}
