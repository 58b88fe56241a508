/** Accepted bodies on which exactly-once release fails: one for each restriction in
    `BodyTame`. */
module Counterexamples {
  import opened Options
  import opened Hir
  import opened Sorting
  import opened Ownership
  import opened Paths
  import opened Audit
  import opened Memory
  import opened DropPass
  import opened MoveChecker
  import opened Scopes
  import opened WellFormed
  import opened ExactCondition

  const MAKE := Call(true, [])
  const CLEAN := Look({}, 0)

  function Eat(x: Local): Expr {
    Call(false, [Use(x)])
  }

  function Body(ss: seq<Stmt>): Block {
    Block(ss, [])
  }

  // Unrolling the list functions, one element at a time.

  lemma Scoped(s: Stmt, rest: seq<Stmt>, vis: set<Local>, inLoop: bool)
    ensures StmtsScoped([s] + rest, vis, inLoop) ==
            (StmtScoped(s, vis, inLoop) && StmtsScoped(rest, After(s, vis), inLoop))
  {
    assert ([s] + rest)[1..] == rest;
  }

  lemma Walked(s: Stmt, rest: seq<Stmt>, k: Look)
    ensures WalkStmts([s] + rest, k) == WalkStmts(rest, WalkStmt(s, k))
  {
    assert ([s] + rest)[1..] == rest;
  }

  lemma Visited(s: Stmt, rest: seq<Stmt>, outer: seq<seq<Local>>, scope: seq<Local>, loopStart: Option<nat>,
                moved: set<Local>)
    ensures var h := VisitStmt(s, outer, scope, loopStart, moved);
            var t := VisitStmts(rest, outer, h.scope, loopStart, h.moved);
            VisitStmts([s] + rest, outer, scope, loopStart, moved) ==
            StmtsOut([h.stmt] + t.stmts, t.scope, t.moved, h.diverges || t.diverges)
  {
    assert ([s] + rest)[1..] == rest;
  }

  lemma Audited(s: Stmt, rest: seq<Stmt>, own: set<Local>, out: Option<set<Local>>)
    ensures AuditStmts([s] + rest, own, out, out) ==
            var v := AuditStmt(s, own, out, out);
            if v.FallsWith? then AuditStmts(rest, v.own, out, out) else v
  {
    assert ([s] + rest)[1..] == rest;
  }

  lemma Plain(s: Stmt, rest: seq<Stmt>)
    ensures PlainStmts([s] + rest) == (PlainStmt(s) && PlainStmts(rest))
  {
    assert ([s] + rest)[1..] == rest;
  }

  lemma Alone(s: Stmt)
    ensures [s] == [s] + []
  {
  }

  lemma AnArg(x: Local, k: Look, vis: set<Local>)
    ensures WalkExpr(Eat(x), k) == MarkMoved(ReadOf(k, x), x)
    ensures ExprScoped(Eat(x), vis) == (x in vis)
    ensures MovedIn(Eat(x)) == {x}
    ensures EvalEvents(Eat(x)) == [Read(x), GiveAway(x)]
  {
    var args := [Use(x)];
    assert args[1..] == [];
    assert ArgEvents(args) == [Read(x)] + [] && Handover(args) == [GiveAway(x)] + [];
    assert CallEvents(args) == [Read(x)] + [GiveAway(x)];
    assert WalkArgs(args, k) == WalkArgs([], MarkMoved(ReadOf(k, x), x));
    assert ArgsScoped(args, vis) == (ExprScoped(Use(x), vis) && ArgsScoped([], vis));
    assert MovedInArgs(args) == {x} + MovedIn(Use(x)) + MovedInArgs([]);
  }

  // ------------------------------------------------ a condition hands a value over

  const GUARD := If(Eat(0), Body([]), None)

  /** `let a = make; if (eat(a)) { }` */
  const EATEN_IN_CONDITION := Body([Let(0, MAKE)] + [GUARD])

  lemma EatenInConditionAccepted()
    ensures BodyScoped(EATEN_IN_CONDITION) && Accepts(EATEN_IN_CONDITION)
  {
    Scoped(Let(0, MAKE), [GUARD], {}, false);
    Walked(Let(0, MAKE), [GUARD], CLEAN);
    AnArg(0, CLEAN, {0});
    assert StmtScoped(GUARD, {0}, false);
    assert [GUARD] == [GUARD] + [];
    Scoped(GUARD, [], {0}, false);
    Walked(GUARD, [], CLEAN);
    assert MAKE.args == [];
  }

  lemma EatenInConditionElaborated()
    ensures Elaborate(EATEN_IN_CONDITION) == Block(EATEN_IN_CONDITION.stmts, [0])
  {
    GuardVisited();
    Visited(Let(0, MAKE), [GUARD], [], [], None, {});
    LetVisited(0, []);
    assert [] + [0] == [0] && [0][1..] == [];
    assert VisitStmts(EATEN_IN_CONDITION.stmts, [], [], None, {}) ==
           StmtsOut([Let(0, MAKE)] + [GUARD], [0], {}, false);
    assert Survivors([0], {}) == Survivors([], {}) + [0];
  }

  lemma LetVisited(x: Local, scope: seq<Local>)
    ensures VisitStmt(Let(x, MAKE), [], scope, None, {}) == StmtOut(Let(x, MAKE), scope + [x], {}, false)
  {
    assert MovedIn(MAKE) == {};
  }

  lemma GuardVisited()
    ensures VisitStmts([GUARD], [], [0], None, {}) == StmtsOut([GUARD], [0], {}, false)
  {
    assert VisitBlock(Body([]), [] + [[0]], None, {}) == BlockOut(Body([]), {}, false);
    assert Sorted({}) == [];
    assert VisitStmt(GUARD, [], [0], None, {}) == StmtOut(GUARD, [0], {}, false);
    Visited(GUARD, [], [], [0], None, {});
    assert [GUARD] + [] == [GUARD];
  }

  lemma MakeAudited(x: Local, own: set<Local>, out: Option<set<Local>>)
    requires x !in own
    ensures AuditStmt(Let(x, MAKE), own, out, out) == FallsWith(own + {x})
  {
    assert CallEvents([]) == [] && BindEvents(x, MAKE) == [Fresh(x)];
    assert [Fresh(x)][1..] == [];
    assert Follow(own + {x}, []) == Some(own + {x});
  }

  lemma EatFollowed(x: Local, own: set<Local>)
    requires x in own
    ensures Follow(own, EvalEvents(Eat(x))) == Some(own - {x})
  {
    AnArg(x, CLEAN, {});
    var es := [Read(x), GiveAway(x)];
    assert es[1..] == [GiveAway(x)] && es[1..][1..] == [];
    assert Follow(own - {x}, []) == Some(own - {x});
    assert Follow(own, es[1..]) == Some(own - {x});
  }

  lemma EatenInConditionFails()
    ensures !AllRunsSafe(Elaborate(EATEN_IN_CONDITION))
  {
    EatenInConditionElaborated();
    var body := Block(EATEN_IN_CONDITION.stmts, [0]);
    MakeAudited(0, {}, None);
    Audited(Let(0, MAKE), [GUARD], {}, None);
    EatFollowed(0, {0});
    assert {0} - {0} == {} && {} + {0} == {0};
    assert AuditBlock(Body([]), {}, None, None) == FallsWith({});
    assert AuditStmt(GUARD, {0}, None, None) == FallsWith({});
    Audited(GUARD, [], {0}, None);
    assert [GUARD] + [] == [GUARD];
    assert AuditStmts(body.stmts, {}, None, None) == FallsWith({});
    assert DropEvents([0]) == [Drop(0)];
    assert Follow({}, DropEvents([0])) == None;
    assert !Passes(body);
    EatenInConditionPlain();
    ElaborationSafeExactly(EATEN_IN_CONDITION);
  }

  lemma EatenInConditionPlain()
    ensures PlainBlock(EATEN_IN_CONDITION)
  {
    Plain(Let(0, MAKE), [GUARD]);
    Alone(GUARD);
    Plain(GUARD, []);
  }

  // --------------------------------------- a moved local is revived in a nested block

  const REFILL := Assign(0, MAKE, true)
  const REVIVE := If(Lit, Body([REFILL]), None)

  /** `let a = make; eat(a); if (..) { a = make; }` */
  const REVIVED := Body([Let(0, MAKE)] + ([Do(Eat(0))] + [REVIVE]))

  lemma RevivedAccepted()
    ensures BodyScoped(REVIVED) && Accepts(REVIVED) && PlainBlock(REVIVED)
  {
    Alone(REVIVE);
    Alone(REFILL);
    AnArg(0, CLEAN, {0});
    Scoped(Let(0, MAKE), [Do(Eat(0))] + [REVIVE], {}, false);
    Scoped(Do(Eat(0)), [REVIVE], {0}, false);
    Scoped(REVIVE, [], {0}, false);
    Scoped(REFILL, [], {0}, false);
    assert {} + {0} == {0};
    Plain(Let(0, MAKE), [Do(Eat(0))] + [REVIVE]);
    Plain(Do(Eat(0)), [REVIVE]);
    Plain(REVIVE, []);
    Plain(REFILL, []);
    RevivedWalked();
  }

  lemma RevivedWalked()
    ensures Accepts(REVIVED)
  {
    var eaten := Look({0}, 0);
    Alone(REVIVE);
    Alone(REFILL);
    AnArg(0, CLEAN, {0});
    Walked(Let(0, MAKE), [Do(Eat(0))] + [REVIVE], CLEAN);
    Walked(Do(Eat(0)), [REVIVE], CLEAN);
    Walked(REVIVE, [], eaten);
    Walked(REFILL, [], eaten);
    assert {} + {0} == {0};
    assert WalkStmt(Let(0, MAKE), CLEAN) == CLEAN;
    assert WalkStmt(Do(Eat(0)), CLEAN) == eaten;
    assert WalkBlock(Body([REFILL]), eaten).errors == 0;
    assert WalkStmt(REVIVE, eaten).errors == 0;
  }

  const REFILLED := Assign(0, MAKE, false)
  const REVIVE_OUT := If(Lit, Body([REFILLED]), None)

  lemma RevivedElaborated()
    ensures Elaborate(REVIVED) == Body([Let(0, MAKE)] + ([Do(Eat(0))] + [REVIVE_OUT]))
  {
    ReviveVisited();
    AnArg(0, CLEAN, {0});
    LetVisited(0, []);
    Alone(REVIVE);
    Alone(REVIVE_OUT);
    assert [] + [0] == [0] && {} + {0} == {0};
    Visited(Let(0, MAKE), [Do(Eat(0))] + [REVIVE], [], [], None, {});
    Visited(Do(Eat(0)), [REVIVE], [], [0], None, {});
    Visited(REVIVE, [], [], [0], None, {0});
    assert VisitStmts([REVIVE], [], [0], None, {0}) == StmtsOut([REVIVE_OUT], [0], {0}, false);
    assert VisitStmts(REVIVED.stmts, [], [], None, {}) ==
           StmtsOut([Let(0, MAKE)] + ([Do(Eat(0))] + [REVIVE_OUT]), [0], {0}, false);
    assert Survivors([0], {0}) == Survivors([], {0}) + [];
  }

  lemma ReviveVisited()
    ensures VisitStmt(REVIVE, [], [0], None, {0}) == StmtOut(REVIVE_OUT, [0], {0}, false)
  {
    var chain: seq<seq<Local>> := [] + [[0]];
    Alone(REFILL);
    Alone(REFILLED);
    Visited(REFILL, [], chain, [], None, {0});
    assert MovedByBinding(MAKE) == {} && {0} + {} == {0} && {0} - {0} == {};
    assert VisitStmt(REFILL, chain, [], None, {0}) == StmtOut(REFILLED, [], {}, false);
    assert VisitBlock(REVIVE.thn, chain, None, {0}) == BlockOut(Body([REFILLED]), {}, false);
    var none: set<Local> := {};
    assert none + none == none && none - none == none && {0} + none == {0};
    assert Sorted(none) == [];
    assert WithFrees(Body([REFILLED]), []) == Body([REFILLED]);
  }

  /** The refilled value is never freed. */
  lemma RevivedFails()
    ensures !AllRunsSafe(Elaborate(REVIVED))
  {
    RevivedElaborated();
    Alone(REVIVE_OUT);
    Alone(REFILLED);
    MakeAudited(0, {}, None);
    EatFollowed(0, {0});
    assert {0} - {0} == {} && {} + {0} == {0};
    Audited(Let(0, MAKE), [Do(Eat(0))] + [REVIVE_OUT], {}, None);
    Audited(Do(Eat(0)), [REVIVE_OUT], {0}, None);
    Audited(REVIVE_OUT, [], {}, None);
    ReviveRejected();
    assert !Passes(Elaborate(REVIVED));
    RevivedAccepted();
    ElaborationSafeExactly(REVIVED);
  }

  lemma ReviveRejected()
    ensures AuditStmt(REVIVE_OUT, {}, None, None) == Reject
  {
    Alone(REFILLED);
    Audited(REFILLED, [], {}, None);
    assert CallEvents([]) == [] && AssignEvents(0, MAKE, false) == [Fresh(0)];
    assert [Fresh(0)][1..] == [];
    assert Follow({0}, []) == Some({0}) && {} + {0} == {0};
    assert AuditStmt(REFILLED, {}, None, None) == FallsWith({0});
    assert AuditBlock(Body([REFILLED]), {}, None, None) == FallsWith({0});
    assert AuditStmt(REVIVE_OUT, {}, None, None) == Join(FallsWith({0}), FallsWith({}));
  }

  // ------------------------------- a loop is left having moved something owned outside

  const LEAVE := If(Lit, Body([Do(Eat(0))] + [Break([])]), None)
  const LOOP := While(Lit, Body([LEAVE]))

  /** `let a = make; while (..) { if (..) { eat(a); break; } }` */
  const EATEN_BEFORE_BREAK := Body([Let(0, MAKE)] + [LOOP])

  lemma EatenBeforeBreakAccepted()
    ensures BodyScoped(EATEN_BEFORE_BREAK) && Accepts(EATEN_BEFORE_BREAK) && PlainBlock(EATEN_BEFORE_BREAK)
  {
    Alone(LOOP);
    Alone(LEAVE);
    Alone(Break([]));
    AnArg(0, CLEAN, {0});
    assert {} + {0} == {0};
    Scoped(Let(0, MAKE), [LOOP], {}, false);
    Scoped(LOOP, [], {0}, false);
    Scoped(LEAVE, [], {0}, true);
    Scoped(Do(Eat(0)), [Break([])], {0}, true);
    Scoped(Break([]), [], {0}, true);
    Plain(Let(0, MAKE), [LOOP]);
    Plain(LOOP, []);
    Plain(LEAVE, []);
    Plain(Do(Eat(0)), [Break([])]);
    Plain(Break([]), []);
    EatenBeforeBreakWalked();
  }

  lemma EatenBeforeBreakWalked()
    ensures Accepts(EATEN_BEFORE_BREAK)
  {
    Alone(LOOP);
    Alone(LEAVE);
    Alone(Break([]));
    AnArg(0, CLEAN, {0});
    Walked(Let(0, MAKE), [LOOP], CLEAN);
    Walked(LOOP, [], CLEAN);
    Walked(LEAVE, [], CLEAN);
    Walked(Do(Eat(0)), [Break([])], CLEAN);
    Walked(Break([]), [], Look({0}, 0));
    assert WalkStmt(Let(0, MAKE), CLEAN) == CLEAN;
    assert AlwaysExits(LEAVE.thn);
    assert WalkStmt(LEAVE, CLEAN) == CLEAN;
    assert WalkLoop(LOOP.body, CLEAN) == CLEAN;
  }

  lemma EatenBeforeBreakElaborated()
    ensures Elaborate(EATEN_BEFORE_BREAK) == Block(EATEN_BEFORE_BREAK.stmts, [0])
  {
    LoopVisited();
    LetVisited(0, []);
    Alone(LOOP);
    assert [] + [0] == [0] && [0][1..] == [];
    Visited(Let(0, MAKE), [LOOP], [], [], None, {});
    Visited(LOOP, [], [], [0], None, {});
    assert VisitStmts(EATEN_BEFORE_BREAK.stmts, [], [], None, {}) ==
           StmtsOut([Let(0, MAKE)] + [LOOP], [0], {}, false);
    assert Survivors([0], {}) == Survivors([], {}) + [0];
  }

  lemma LoopVisited()
    ensures VisitStmt(LOOP, [], [0], None, {}) == StmtOut(LOOP, [0], {}, false)
  {
    var chain: seq<seq<Local>> := [] + [[0]];
    var inner: seq<seq<Local>> := chain + [[]];
    Alone(LEAVE);
    LeaveVisited(chain, inner);
    Visited(LEAVE, [], chain, [], Some(1), {});
    assert VisitBlock(LOOP.body, chain, Some(1), {}) == BlockOut(LOOP.body, {}, false);
  }

  lemma LeaveVisited(chain: seq<seq<Local>>, inner: seq<seq<Local>>)
    requires chain == [[0]] && inner == chain + [[]]
    ensures VisitStmt(LEAVE, chain, [], Some(1), {}) == StmtOut(LEAVE, [], {}, false)
  {
    Alone(Break([]));
    AnArg(0, CLEAN, {0});
    Visited(Do(Eat(0)), [Break([])], inner, [], Some(1), {});
    Visited(Break([]), [], inner, [], Some(1), {0});
    assert {} + {0} == {0};
    var here := inner + [[]];
    var two, one, none: seq<seq<Local>> := [[], []], [[]], [];
    assert here[1..] == two && two[1..] == one && one[1..] == none;
    assert JumpDrops(one, {0}) == [] && JumpDrops(two, {0}) == [];
    assert VisitStmt(Break([]), inner, [], Some(1), {0}) == StmtOut(Break([]), [], {0}, true);
    assert VisitBlock(LEAVE.thn, inner, Some(1), {}) == BlockOut(LEAVE.thn, {0}, true);
  }

  /** The value eaten on the way out is freed again at the end of the body. */
  lemma EatenBeforeBreakFails()
    ensures !AllRunsSafe(Elaborate(EATEN_BEFORE_BREAK))
  {
    EatenBeforeBreakElaborated();
    Alone(LOOP);
    MakeAudited(0, {}, None);
    Audited(Let(0, MAKE), [LOOP], {}, None);
    Audited(LOOP, [], {0}, None);
    LoopRejected();
    assert {} + {0} == {0};
    assert !Passes(Elaborate(EATEN_BEFORE_BREAK));
    EatenBeforeBreakAccepted();
    ElaborationSafeExactly(EATEN_BEFORE_BREAK);
  }

  lemma LoopRejected()
    ensures AuditStmt(LOOP, {0}, None, None) == Reject
  {
    var out := Some({0});
    Alone(LEAVE);
    Alone(Break([]));
    EatFollowed(0, {0});
    assert {0} - {0} == {};
    Audited(Do(Eat(0)), [Break([])], {0}, out);
    Audited(Break([]), [], {}, out);
    assert DropEvents([]) == [];
    assert AuditStmt(Break([]), {}, out, out) == Reject;
    assert AuditBlock(LEAVE.thn, {0}, out, out) == Reject;
    Audited(LEAVE, [], {0}, out);
    assert AuditStmt(LEAVE, {0}, out, out) == Reject;
  }
}
