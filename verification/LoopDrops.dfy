/** What the drop pass makes of a rewritten loop: every temporary of its condition is
    released exactly once, on every way out of an iteration. */
module LoopDrops {
  import opened Options
  import opened Hir
  import opened Sorting
  import opened Ownership
  import opened Paths
  import opened Audit
  import opened Memory
  import opened DropPass
  import opened MoveChecker
  import opened Scopes
  import opened WellFormed
  import opened Containment
  import opened ExactlyOnce
  import opened LoopDesugar
  import opened ExactCondition
  import opened Counterexamples

  // ------------------------------------------------------------ the bindings, visited

  /** The local of a binding, if it owns a value. */
  function Owned(s: Stmt): seq<Local>
    requires s.Let?
  {
    if Owns(s.init) then [s.x] else []
  }

  /** The temporaries that own a value, in the order they are bound. */
  function Names(pre: seq<Stmt>): seq<Local>
    requires AllLets(pre)
  {
    if |pre| == 0 then []
    else
      assert pre[0] in pre;
      Owned(pre[0]) + Names(pre[1..])
  }

  /** What binding the temporaries moves. */
  function MovedByLets(pre: seq<Stmt>): set<Local>
    requires AllLets(pre)
  {
    if |pre| == 0 then {}
    else
      assert pre[0] in pre;
      MovedByBinding(pre[0].init) + MovedByLets(pre[1..])
  }

  lemma LetVisited(s: Stmt, outer: seq<seq<Local>>, scope: seq<Local>, loopStart: Option<nat>, moved: set<Local>)
    requires s.Let?
    ensures VisitStmt(s, outer, scope, loopStart, moved) ==
            StmtOut(s, scope + Owned(s), moved + MovedByBinding(s.init), false)
  {
    assert scope + [] == scope;
  }

  /** The drop pass over the bindings and what follows them. */
  lemma {:induction false} VisitLets(pre: seq<Stmt>, more: seq<Stmt>, outer: seq<seq<Local>>, scope: seq<Local>, loopStart: Option<nat>, moved: set<Local>)
    requires AllLets(pre)
    ensures var t := VisitStmts(more, outer, scope + Names(pre), loopStart, moved + MovedByLets(pre));
            VisitStmts(pre + more, outer, scope, loopStart, moved) == StmtsOut(pre + t.stmts, t.scope, t.moved, t.diverges)
    decreases |pre|
  {
    hide VisitStmt, MovedByBinding, Owned;
    if |pre| == 0 {
      assert pre + more == more && scope + [] == scope && moved + {} == moved;
      var t := VisitStmts(more, outer, scope, loopStart, moved);
      assert [] + t.stmts == t.stmts;
    } else {
      assert pre[0] in pre && forall s | s in pre[1..] :: s in pre;
      assert pre + more == [pre[0]] + (pre[1..] + more);
      Visited(pre[0], pre[1..] + more, outer, scope, loopStart, moved);
      var first := Owned(pre[0]);
      LetVisited(pre[0], outer, scope, loopStart, moved);
      VisitLets(pre[1..], more, outer, scope + first, loopStart, moved + MovedByBinding(pre[0].init));
      assert scope + first + Names(pre[1..]) == scope + Names(pre);
      assert moved + MovedByBinding(pre[0].init) + MovedByLets(pre[1..]) == moved + MovedByLets(pre);
      var t := VisitStmts(more, outer, scope + Names(pre), loopStart, moved + MovedByLets(pre));
      assert [pre[0]] + (pre[1..] + t.stmts) == pre + t.stmts;
    }
  }

  /** Bindings are tame, whatever they move. */
  lemma {:induction false} LetsTame(pre: seq<Stmt>, more: seq<Stmt>, outer: seq<seq<Local>>, scope: seq<Local>, c: Ctx, moved: set<Local>)
    requires AllLets(pre)
    ensures StmtsTame(pre + more, outer, scope, c, moved) <==>
            StmtsTame(more, outer, scope + Names(pre), c, moved + MovedByLets(pre))
    decreases |pre|
  {
    hide VisitStmt, MovedByBinding, Owned;
    if |pre| == 0 {
      assert pre + more == more && scope + [] == scope && moved + {} == moved;
    } else {
      assert pre[0] in pre && forall s | s in pre[1..] :: s in pre;
      assert (pre + more)[1..] == pre[1..] + more;
      var first := Owned(pre[0]);
      LetVisited(pre[0], outer, scope, Start(c), moved);
      LetsTame(pre[1..], more, outer, scope + first, c, moved + MovedByBinding(pre[0].init));
      assert scope + first + Names(pre[1..]) == scope + Names(pre);
      assert moved + MovedByBinding(pre[0].init) + MovedByLets(pre[1..]) == moved + MovedByLets(pre);
    }
  }

  lemma GuardVisited(residual: Expr, outer: seq<seq<Local>>, scope: seq<Local>, moved: set<Local>) returns (drops: seq<Local>)
    ensures drops == Survivors(scope, moved)
    ensures VisitStmt(Guard(residual), outer, scope, Some(|outer|), moved) ==
            StmtOut(If(residual, Block([Break(drops)], []), None), scope, moved, false)
  {
    var chain := outer + [scope];
    var inner := chain + [[]];
    var leave := [Break([])];
    assert leave[1..] == [];
    var empty: seq<seq<Local>> := [[]];
    assert inner[|outer|..] == [scope] + empty && ([scope] + empty)[1..] == empty && empty[1..] == [];
    drops := JumpDrops(inner[|outer|..], moved);
    assert JumpDrops(empty, moved) == [] + [];
    assert drops == [] + Survivors(scope, moved) == Survivors(scope, moved);
    assert VisitStmts([], chain, [], Some(|outer|), moved) == StmtsOut([], [], moved, false);
    assert VisitStmts(leave, chain, [], Some(|outer|), moved).stmts == [Break(drops)] + [];
    assert VisitBlock(Block(leave, []), chain, Some(|outer|), moved).block == Block([Break(drops)], []);
    assert moved + {} == moved;
  }

  /** The guard is tame exactly when the condition hands nothing over and no binding moved
      anything owned outside the loop. */
  lemma GuardTame(residual: Expr, outer: seq<seq<Local>>, scope: seq<Local>, entry: set<Local>, moved: set<Local>)
    requires entry <= moved
    ensures var c := InLoop(|outer|, entry);
            StmtTame(Guard(residual), outer, scope, c, moved) <==>
            MovedIn(residual) == {} && moved !! Vis(outer) - entry
  {
    var c := InLoop(|outer|, entry);
    var chain := outer + [scope];
    var inner := chain + [[]];
    var leave := [Break([])];
    assert leave[1..] == [];
    assert inner[..|outer|] == outer;
    assert StmtsTame(leave, chain, [], c, moved) <==> LeavesNeutral(inner, c, moved);
    assert AlwaysExits(Block(leave, []));
  }

  /** When the body of the rewritten loop is tame, in terms of the pieces it is made of. */
  lemma RewrittenTame(pre: seq<Stmt>, residual: Expr, body: Block, outer: seq<seq<Local>>, moved: set<Local>)
    requires AllLets(pre)
    ensures var c, now := InLoop(|outer|, moved), moved + MovedByLets(pre);
            BlockTame(NewBody(pre, residual, body), outer, c, moved) <==>
            && MovedIn(residual) == {}
            && MovedByLets(pre) !! Vis(outer) - moved
            && StmtsTame(body.stmts, outer, Names(pre), c, now)
  {
    var c, now := InLoop(|outer|, moved), moved + MovedByLets(pre);
    var rest := [Guard(residual)] + body.stmts;
    LetsTame(pre, rest, outer, [], c, moved);
    assert [] + Names(pre) == Names(pre);
    assert rest[0] == Guard(residual) && rest[1..] == body.stmts;
    GuardTame(residual, outer, Names(pre), moved, now);
    var drops := GuardVisited(residual, outer, Names(pre), now);
    assert now !! Vis(outer) - moved <==> MovedByLets(pre) !! Vis(outer) - moved;
  }

  // ------------------------------------------------------------------ the false test

  /** The break that ends the loop when the condition fails lists every temporary of that
      last evaluation that no binding handed over, each once, and nothing else. */
  lemma FalseTestDrops(pre: seq<Stmt>, residual: Expr, body: Block, outer: seq<seq<Local>>, moved: set<Local>) returns (drops: seq<Local>)
    requires AllLets(pre) && NoDup(Names(pre))
    ensures var r := VisitBlock(NewBody(pre, residual, body), outer, Some(|outer|), moved).block.stmts;
            |r| > |pre| && r[..|pre|] == pre && r[|pre|] == If(residual, Block([Break(drops)], []), None)
    ensures NoDup(drops) && Elems(drops) == Elems(Names(pre)) - (moved + MovedByLets(pre))
  {
    var rest := [Guard(residual)] + body.stmts;
    var scope, now := [] + Names(pre), moved + MovedByLets(pre);
    VisitLets(pre, rest, outer, [], Some(|outer|), moved);
    assert rest[0] == Guard(residual) && rest[1..] == body.stmts;
    drops := GuardVisited(residual, outer, Names(pre), now);
    assert scope == Names(pre);
    SurvivorsAre(Names(pre), now);
    var t := VisitStmts(rest, outer, scope, Some(|outer|), now);
    assert t.stmts[0] == VisitStmt(Guard(residual), outer, scope, Some(|outer|), now).stmt;
    assert (pre + t.stmts)[..|pre|] == pre && (pre + t.stmts)[|pre|] == t.stmts[0];
  }

  /** Those drops release the temporaries still held, once each, exactly when what is left
      of the condition gives nothing away. */
  lemma FalseTestReleases(residual: Expr, drops: seq<Local>, own: set<Local>, kept: set<Local>, vis: set<Local>, k: Look)
    requires ExprScoped(residual, vis) && own == vis - k.moved && WalkExpr(residual, k).errors == k.errors
    requires NoDup(drops) && Elems(drops) <= own && kept == own - Elems(drops)
    ensures Follow(own, EvalEvents(residual) + DropEvents(drops)) == Some(kept) <==> MovedIn(residual) == {}
  {
    var gone := MovedIn(residual);
    EvalFollows(residual, own, vis, k);
    MovedInScope(residual, vis);
    FollowConcat(own, EvalEvents(residual), DropEvents(drops));
    FollowDrops(own, drops);
    assert gone <= own && gone !! own - gone;
    if gone == {} {
      assert own - gone == own;
    } else if Follow(own - gone, DropEvents(drops)) == Some(kept) {
      FollowInjective(own - gone, own, DropEvents(drops));
      assert false;
    }
  }

  // ------------------------------------------------------------------- whole runs

  /** How often a value is put into `x`, and how often one leaves it. */
  function Gains(es: seq<Event>, x: Local): nat {
    if |es| == 0 then 0
    else (if es[0] == Fresh(x) || (es[0].Hand? && es[0].dst == x) then 1 else 0) + Gains(es[1..], x)
  }

  function Losses(es: seq<Event>, x: Local): nat {
    if |es| == 0 then 0
    else (if es[0] == GiveAway(x) || es[0] == Drop(x) || (es[0].Hand? && es[0].src == x) then 1 else 0) + Losses(es[1..], x)
  }

  function Holds(own: set<Local>, x: Local): nat {
    if x in own then 1 else 0
  }

  /** Under the discipline no value is lost or counted twice. */
  lemma {:induction false} Conserved(own: set<Local>, es: seq<Event>, x: Local)
    requires Follow(own, es).Some?
    ensures Gains(es, x) + Holds(own, x) == Losses(es, x) + Holds(Follow(own, es).value, x)
    decreases |es|
  {
    if |es| > 0 { Conserved(Step(own, es[0]).value, es[1..], x); }
  }

  /** A temporary is not visible where its loop stands. */
  lemma {:induction false} NamesFresh(pre: seq<Stmt>, more: seq<Stmt>, vis: set<Local>, inLoop: bool)
    requires AllLets(pre) && StmtsScoped(pre + more, vis, inLoop)
    ensures Elems(Names(pre)) !! vis
    decreases |pre|
  {
    if |pre| > 0 {
      assert pre[0] in pre && forall s | s in pre[1..] :: s in pre;
      assert (pre + more)[1..] == pre[1..] + more && (pre + more)[0] == pre[0];
      NamesFresh(pre[1..], more, After(pre[0], vis), inLoop);
    }
  }

  lemma LoopFlow(c: Expr, body: Block, ch: seq<bool>)
    ensures !RunLoop(c, body, ch).flow.Broke? && !RunLoop(c, body, ch).flow.Continued?
    decreases |ch|
  {
    if |ch| > 0 && ch[0] {
      var once := RunBlock(body, ch[1..]);
      if once.flow.Falls? || once.flow.Continued? { LoopFlow(c, body, once.rest); }
    }
  }

  /** A run of the rewritten loop, with its drops, in a function that owns `own`: it gives
      back `own` when it is left, and nothing when it returns. */
  lemma RewrittenRespects(pre: seq<Stmt>, residual: Expr, body: Block, outer: seq<seq<Local>>, scope: seq<Local>,
                          c: Ctx, moved: set<Local>, k: Look, ch: seq<bool>)
    requires AllLets(pre) && Ready(outer, scope, c, moved, k)
    requires var s := Desugar(pre, residual, body);
             && StmtScoped(s, Vis(outer + [scope]), c.InLoop?)
             && StmtTame(s, outer, scope, c, moved)
             && WalkStmt(s, k).errors == k.errors
    ensures var p := RunStmt(VisitStmt(Desugar(pre, residual, body), outer, scope, Start(c), moved).stmt, ch);
            var own := Vis(outer + [scope]) - moved;
            && !p.flow.Broke? && !p.flow.Continued?
            && Respects(p, own, Some(own), None, None)
  {
    var s := Desugar(pre, residual, body);
    var own, out := Vis(outer + [scope]) - moved, LoopOwn(outer, c);
    AuditsStmt(s, outer, scope, c, moved, k);
    var r := VisitStmt(s, outer, scope, Start(c), moved);
    assert r.stmt.While? && r.scope == scope && r.moved == moved && !r.diverges;
    SoundStmt(r.stmt, ch, own, out, out);
    LoopFlow(r.stmt.cond, r.stmt.body, ch);
  }

  /** No run of the rewritten loop misuses a cell; when it is left or returned from, every
      cell made in it is released exactly once unless a local from outside holds it; and
      each value put into a temporary has left it again, once. */
  lemma RewrittenReleases(pre: seq<Stmt>, residual: Expr, body: Block, outer: seq<seq<Local>>, scope: seq<Local>,
                          c: Ctx, moved: set<Local>, k: Look, ch: seq<bool>, m: Mem)
    requires AllLets(pre) && Ready(outer, scope, c, moved, k)
    requires var s := Desugar(pre, residual, body);
             && StmtScoped(s, Vis(outer + [scope]), c.InLoop?)
             && StmtTame(s, outer, scope, c, moved)
             && WalkStmt(s, k).errors == k.errors
    requires Linked(m, Vis(outer + [scope]) - moved)
    ensures var p := RunStmt(VisitStmt(Desugar(pre, residual, body), outer, scope, Start(c), moved).stmt, ch);
            var own, end := Vis(outer + [scope]) - moved, Execute(m, p.events);
            && !end.misuse
            && (p.flow.Falls? ==> Linked(end, own))
            && (p.flow.Returned? ==> Linked(end, {}))
            && (p.flow.Falls? || p.flow.Returned? ==>
                  && (forall cell: Cell | m.next <= cell < end.next :: end.released[cell] == 1 || Held(end, own, cell))
                  && (forall t | t in Names(pre) :: Gains(p.events, t) == Losses(p.events, t)))
  {
    var own := Vis(outer + [scope]) - moved;
    RewrittenRespects(pre, residual, body, outer, scope, c, moved, k, ch);
    var p := RunStmt(VisitStmt(Desugar(pre, residual, body), outer, scope, Start(c), moved).stmt, ch);
    ExecuteKeepsLinked(m, own, p.events);
    var left := Follow(own, p.events).value;
    var nb := NewBody(pre, residual, body);
    NamesFresh(pre, [Guard(residual)] + body.stmts, Vis(outer + [scope]), true);
    forall t | t in Names(pre) ensures Gains(p.events, t) + Holds(own, t) == Losses(p.events, t) + Holds(left, t) && Holds(own, t) == 0 {
      Conserved(own, p.events, t);
      assert t in Elems(Names(pre));
    }
  }

  // ------------------------------------- a condition that gives its temporary away

  /** `while (eat(make())) { }`, rewritten. */
  const EATING := Desugar([Let(0, MAKE)], Eat(0), Body([]))
  const EATEN_TEMPORARY := Body([EATING])
  const LEAVE_AND_DROP := If(Eat(0), Block([Break([0])], []), None)
  const EATING_OUT := While(Lit, Block([Let(0, MAKE)] + [LEAVE_AND_DROP], [0]))

  lemma EatingIs()
    ensures AllLets([Let(0, MAKE)]) && Names([Let(0, MAKE)]) == [0] && MovedByLets([Let(0, MAKE)]) == {}
    ensures NewBody([Let(0, MAKE)], Eat(0), Body([])) == Block([Let(0, MAKE)] + [Guard(Eat(0))], [])
  {
    var pre := [Let(0, MAKE)];
    assert pre[1..] == [] && Owned(pre[0]) == [0] && MovedByBinding(MAKE) == {};
    assert [Guard(Eat(0))] + [] == [Guard(Eat(0))];
  }

  lemma EatenTemporaryAccepted()
    ensures BodyScoped(EATEN_TEMPORARY) && Accepts(EATEN_TEMPORARY) && PlainBlock(EATEN_TEMPORARY)
  {
    var guard := Guard(Eat(0));
    EatingIs();
    Alone(EATING);
    Alone(guard);
    Alone(Break([]));
    AnArg(0, CLEAN, {0});
    Scoped(EATING, [], {}, false);
    Scoped(Let(0, MAKE), [guard], {}, true);
    Scoped(guard, [], {0}, true);
    Scoped(Break([]), [], {0}, true);
    Plain(EATING, []);
    Plain(Let(0, MAKE), [guard]);
    Plain(guard, []);
    Plain(Break([]), []);
    Walked(EATING, [], CLEAN);
    assert {} + {0} == {0};
    forall m: set<Local> | m <= {0} ensures WalkBlock(EATING.body, Look(m, 0)) == Look({0}, 0) {
      EatingWalked(m);
    }
  }

  lemma EatingWalked(m: set<Local>)
    requires m <= {0}
    ensures WalkBlock(EATING.body, Look(m, 0)) == Look({0}, 0)
  {
    var guard := Guard(Eat(0));
    EatingIs();
    Alone(guard);
    Alone(Break([]));
    AnArg(0, CLEAN, {0});
    Walked(Let(0, MAKE), [guard], Look(m, 0));
    Walked(guard, [], CLEAN);
    Walked(Break([]), [], Look({0}, 0));
    assert {} + {0} == {0} && m - {0} == {};
    assert WalkExpr(MAKE, Look(m, 0)) == Look(m, 0);
    assert AlwaysExits(guard.thn);
  }

  lemma EatenTemporaryElaborated()
    ensures Elaborate(EATEN_TEMPORARY) == Body([EATING_OUT])
  {
    var pre, guard := [Let(0, MAKE)], Guard(Eat(0));
    var chain: seq<seq<Local>> := [] + [[]];
    EatingIs();
    Alone(EATING);
    Alone(guard);
    VisitLets(pre, [guard], chain, [], Some(1), {});
    assert [] + [0] == [0];
    var drops := GuardVisited(Eat(0), chain, [0], {});
    assert Survivors([0], {}) == Survivors([], {}) + [0];
    Visited(guard, [], chain, [0], Some(1), {});
    assert VisitStmts([guard], chain, [0], Some(1), {}) == StmtsOut([LEAVE_AND_DROP], [0], {}, false);
    assert VisitBlock(EATING.body, chain, Some(1), {}).block == EATING_OUT.body;
    Visited(EATING, [], [], [], None, {});
  }

  /** The temporary is given to `eat` and then dropped. */
  lemma EatenTemporaryFails()
    ensures !AllRunsSafe(Elaborate(EATEN_TEMPORARY))
  {
    EatenTemporaryElaborated();
    Alone(EATING_OUT);
    Alone(LEAVE_AND_DROP);
    MakeAudited(0, {}, Some({}));
    assert {} + {0} == {0};
    EatFollowed(0, {0});
    assert {0} - {0} == {};
    Alone(Break([0]));
    Audited(Break([0]), [], {}, Some({}));
    assert DropEvents([0]) == [Drop(0)];
    Audited(LEAVE_AND_DROP, [], {0}, Some({}));
    Audited(Let(0, MAKE), [LEAVE_AND_DROP], {}, Some({}));
    assert AuditBlock(EATING_OUT.body, {}, Some({}), Some({})) == Reject;
    Audited(EATING_OUT, [], {}, None);
    EatenTemporaryAccepted();
    ElaborationSafeExactly(EATEN_TEMPORARY);
  }
}
