/** The main result on ownership: in an accepted, well-formed body the drops placed
    by the drop pass release every owned value exactly once on every run. */
module ExactlyOnce {
  import opened Options
  import opened Hir
  import opened Sorting
  import opened Ownership
  import opened Paths
  import opened Audit
  import opened Memory
  import opened DropPass
  import opened MoveChecker
  import opened Scopes
  import opened WellFormed
  import opened Containment

  // -------------------------------------------------------------- expressions

  /** Everything visible that the checker does not hold for moved is owned. */
  predicate Covers(own: set<Local>, vis: set<Local>, k: Look) {
    vis - k.moved <= own
  }

  function InnerMoves(args: seq<Expr>): set<Local> {
    if |args| == 0 then {} else MovedIn(args[0]) + InnerMoves(args[1..])
  }

  function Direct(args: seq<Expr>): seq<Local> {
    if |args| == 0 then [] else (if args[0].Use? then [args[0].x] else []) + Direct(args[1..])
  }

  lemma {:induction false} MovedInArgsSplit(args: seq<Expr>)
    ensures MovedInArgs(args) == InnerMoves(args) + Elems(Direct(args))
    decreases args
  {
    if |args| > 0 { MovedInArgsSplit(args[1..]); }
  }

  lemma {:induction false} FollowHandover(own: set<Local>, args: seq<Expr>)
    requires NoDup(Direct(args)) && Elems(Direct(args)) <= own
    ensures Follow(own, Handover(args)) == Some(own - Elems(Direct(args)))
    decreases |args|
  {
    if |args| == 0 {
      assert own - Elems(Direct(args)) == own;
    } else if args[0].Use? {
      var x := args[0].x;
      assert Direct(args) == [x] + Direct(args[1..]);
      NoDupSplit([x], Direct(args[1..]));
      assert x in Elems(Direct(args));
      FollowHandover(own - {x}, args[1..]);
      assert Handover(args)[1..] == Handover(args[1..]);
      assert own - {x} - Elems(Direct(args[1..])) == own - Elems(Direct(args));
    } else {
      assert Handover(args) == Handover(args[1..]);
      assert Direct(args) == Direct(args[1..]);
      FollowHandover(own, args[1..]);
    }
  }

  /** An expression the checker passes hands each value over once. */
  lemma {:induction false} EvalFollows(e: Expr, own: set<Local>, vis: set<Local>, k: Look)
    requires ExprScoped(e, vis) && Covers(own, vis, k)
    requires WalkExpr(e, k).errors == k.errors
    ensures Follow(own, EvalEvents(e)) == Some(own - MovedIn(e))
    ensures e.Call? ==> Follow(own, CallEvents(e.args)) == Some(own - MovedIn(e))
    ensures MovedIn(e) !! k.moved
    ensures e.Use? ==> e.x in own && e.x !in k.moved
    decreases e, 1
  {
    match e
    case Lit => assert own - {} == own;
    case Use(x) => assert own - {} == own; FollowOne(own, Read(x));
    case Borrow(x) => assert own - {} == own; FollowOne(own, Read(x));
    case Call(owns, args) =>
      ArgsFollow(args, own, vis, k);
      MovedInArgsSplit(args);
      FollowHandover(own - InnerMoves(args), args);
      FollowConcat(own, ArgEvents(args), Handover(args));
      assert own - InnerMoves(args) - Elems(Direct(args)) == own - MovedIn(e);
      FollowConcat(own, CallEvents(args), [Temp]);
      FollowOne(own - MovedIn(e), Temp);
      assert CallEvents(args) + [] == CallEvents(args);
  }

  lemma FollowOne(own: set<Local>, e: Event)
    ensures Follow(own, [e]) == Step(own, e)
  {
    if Step(own, e).Some? {
      assert [e][1..] == [];
      assert Follow(Step(own, e).value, []) == Step(own, e);
    }
  }

  lemma {:induction false} ArgsFollow(args: seq<Expr>, own: set<Local>, vis: set<Local>, k: Look)
    requires ArgsScoped(args, vis) && Covers(own, vis, k)
    requires WalkArgs(args, k).errors == k.errors
    ensures Follow(own, ArgEvents(args)) == Some(own - InnerMoves(args))
    ensures NoDup(Direct(args)) && Elems(Direct(args)) <= own - InnerMoves(args)
    ensures Elems(Direct(args)) !! k.moved && InnerMoves(args) !! k.moved
    decreases args, 0
  {
    if |args| == 0 {
      assert own - {} == own;
    } else {
      var a := args[0];
      var k1 := WalkExpr(a, k);
      var k2 := MarkOwningMove(k1, a);
      WalkExprMoves(a, k);
      WalkArgsMoves(args[1..], k2);
      EvalFollows(a, own, vis, k);
      var own1 := own - MovedIn(a);
      ArgsFollow(args[1..], own1, vis, k2);
      FollowConcat(own, EvalEvents(a), ArgEvents(args[1..]));
      assert own1 - InnerMoves(args[1..]) == own - InnerMoves(args);
      if a.Use? {
        NoDupJoin([a.x], Direct(args[1..]));
      } else {
        assert Direct(args) == Direct(args[1..]);
      }
    }
  }

  // --------------------------------------------------------------- statements

  /** What the audit must find after a visited statement, block or list. */
  predicate Found(v: Verdict, diverges: bool, vis: set<Local>, moved: set<Local>) {
    if diverges then v.Exits? else v == FallsWith(vis - moved)
  }

  /** What has to be owned when control leaves the enclosing loop's iteration. */
  function LoopOwn(chain: seq<seq<Local>>, c: Ctx): Option<set<Local>> {
    if c.InLoop? then Some(Outside(chain, c)) else None
  }

  ghost predicate CtxOk(chain: seq<seq<Local>>, c: Ctx) {
    c.InLoop? ==> c.start <= |chain| && c.entry <= Vis(chain[..c.start])
  }

  lemma BindFollows(x: Local, e: Expr, own: set<Local>, vis: set<Local>, k: Look)
    requires ExprScoped(e, vis) && Covers(own, vis, k) && WalkExpr(e, k).errors == k.errors
    requires Owns(e) && x !in own - MovedByBinding(e)
    ensures Follow(own, BindEvents(x, e)) == Some(own - MovedByBinding(e) + {x})
  {
    EvalFollows(e, own, vis, k);
    match e
    case Use(y) =>
      FollowOne(own, Hand(y, x));
      FollowConcat(own, [Read(y)], [Hand(y, x)]);
      assert [Read(y)] + [Hand(y, x)] == BindEvents(x, e);
      assert own - MovedByBinding(e) == own - {y};
    case Call(_, args) =>
      FollowConcat(own, CallEvents(args), [Fresh(x)]);
      FollowOne(own - MovedIn(e), Fresh(x));
      assert own - MovedByBinding(e) == own - MovedIn(e);
  }

  lemma {:induction false} NotMentioned(e: Expr, x: Local)
    requires !Mentions(e, x)
    ensures x !in MovedIn(e) && x !in MovedByBinding(e)
    decreases e
  {
    if e.Call? {
      forall i | 0 <= i < |e.args| ensures !Mentions(e.args[i], x) {}
      NotMentionedArgs(e.args, x);
    }
  }

  lemma {:induction false} NotMentionedArgs(args: seq<Expr>, x: Local)
    requires forall i | 0 <= i < |args| :: !Mentions(args[i], x)
    ensures x !in MovedInArgs(args)
    decreases args
  {
    if |args| > 0 {
      NotMentioned(args[0], x);
      NotMentionedArgs(args[1..], x);
    }
  }

  /** Drop-on-reassign frees the old value exactly when it is still there. */
  lemma AssignFollows(x: Local, e: Expr, dropOld: bool, own: set<Local>, vis: set<Local>, k: Look)
    requires ExprScoped(e, vis) && own == vis - k.moved && WalkExpr(e, k).errors == k.errors
    requires Owns(e) && x in vis && dropOld == (x in own - MovedByBinding(e))
    ensures Follow(own, AssignEvents(x, e, dropOld)) == Some(own - MovedByBinding(e) + {x})
  {
    EvalFollows(e, own, vis, k);
    var prior := if dropOld then [Drop(x)] else [];
    if !Mentions(e, x) {
      NotMentioned(e, x);
      FollowConcat(own, prior, BindEvents(x, e));
      if dropOld {
        FollowOne(own, Drop(x));
        AssignWithout(x, e, own, vis, k);
        assert own - {x} - MovedByBinding(e) + {x} == own - MovedByBinding(e) + {x};
      } else {
        BindFollows(x, e, own, vis, k);
      }
    } else {
      AssignMentioned(x, e, dropOld, own, vis, k);
    }
  }

  /** Freeing the target first does not disturb a right-hand side that never
      mentions it. */
  lemma AssignWithout(x: Local, e: Expr, own: set<Local>, vis: set<Local>, k: Look)
    requires ExprScoped(e, vis) && Covers(own, vis, k) && WalkExpr(e, k).errors == k.errors
    requires Owns(e) && !Mentions(e, x)
    ensures Follow(own - {x}, BindEvents(x, e)) == Some(own - {x} - MovedByBinding(e) + {x})
  {
    ScopedWithout(e, x, vis);
    BindFollows(x, e, own - {x}, vis - {x}, k);
  }

  lemma {:induction false} ScopedWithout(e: Expr, x: Local, vis: set<Local>)
    requires ExprScoped(e, vis) && !Mentions(e, x)
    ensures ExprScoped(e, vis - {x})
    decreases e
  {
    if e.Call? {
      forall i | 0 <= i < |e.args| ensures !Mentions(e.args[i], x) {}
      ArgsScopedWithout(e.args, x, vis);
    }
  }

  lemma {:induction false} ArgsScopedWithout(args: seq<Expr>, x: Local, vis: set<Local>)
    requires ArgsScoped(args, vis) && forall i | 0 <= i < |args| :: !Mentions(args[i], x)
    ensures ArgsScoped(args, vis - {x})
    decreases args
  {
    if |args| > 0 {
      ScopedWithout(args[0], x, vis);
      ArgsScopedWithout(args[1..], x, vis);
    }
  }

  lemma AssignMentioned(x: Local, e: Expr, dropOld: bool, own: set<Local>, vis: set<Local>, k: Look)
    requires ExprScoped(e, vis) && Covers(own, vis, k) && WalkExpr(e, k).errors == k.errors
    requires Owns(e) && Mentions(e, x) && dropOld == (x in own - MovedByBinding(e))
    ensures Follow(own, AssignEvents(x, e, dropOld)) == Some(own - MovedByBinding(e) + {x})
  {
    EvalFollows(e, own, vis, k);
    match e
    case Use(y) =>
      assert AssignEvents(x, e, dropOld) == BindEvents(x, e);
      BindFollows(x, e, own, vis, k);
    case Call(_, args) =>
      var prior := if dropOld then [Drop(x)] else [];
      var mid := own - MovedIn(e);
      assert mid == own - MovedByBinding(e);
      FollowConcat(own, CallEvents(args) + prior, [Fresh(x)]);
      FollowConcat(own, CallEvents(args), prior);
      FollowOne(mid, Drop(x));
      assert Follow(mid, []) == Some(mid);
      FollowOne(mid - {x}, Fresh(x));
      assert mid - {x} + {x} == mid + {x};
  }

  lemma ReturnFollows(v: Option<Expr>, drops: seq<Local>, own: set<Local>, vis: set<Local>, k: Look)
    requires v.Some? ==> ExprScoped(v.value, vis) && WalkExpr(v.value, k).errors == k.errors
    requires Covers(own, vis, k)
    requires NoDup(drops)
    requires Elems(drops) == own - (if v.Some? then MovedByBinding(v.value) else {})
    ensures Follow(own, ReturnEvents(v, drops)) == Some({})
  {
    var left := Elems(drops);
    FollowDrops(left, drops);
    assert left - left == {};
    if v.Some? {
      var e := v.value;
      EvalFollows(e, own, vis, k);
      if e.Use? {
        FollowOne(own, GiveAway(e.x));
        FollowConcat(own, [Read(e.x)], [GiveAway(e.x)]);
        FollowOne(own, Read(e.x));
        assert [Read(e.x)] + [GiveAway(e.x)] == [Read(e.x), GiveAway(e.x)];
        FollowConcat(own, [Read(e.x), GiveAway(e.x)], DropEvents(drops));
        assert own - {e.x} == left;
      } else {
        FollowConcat(own, EvalEvents(e), DropEvents(drops));
        assert own - MovedIn(e) == left;
      }
    } else {
      assert own - {} == own;
      assert ReturnEvents(v, drops) == DropEvents(drops);
    }
  }

  /** Break and continue free the loop-body locals still owned, and nothing else. */
  lemma JumpFollows(chain: seq<seq<Local>>, c: Ctx, moved: set<Local>)
    requires c.InLoop? && c.start <= |chain| && NoDup(Flat(chain))
    requires c.entry <= moved && moved !! Outside(chain, c)
    ensures Follow(Vis(chain) - moved, DropEvents(JumpDrops(chain[c.start..], moved))) == Some(Outside(chain, c))
  {
    assert chain == chain[..c.start] + chain[c.start..];
    FlatConcat(chain[..c.start], chain[c.start..]);
    NoDupSplit(Flat(chain[..c.start]), Flat(chain[c.start..]));
    JumpDropsAre(chain[c.start..], moved);
    FollowDrops(Vis(chain) - moved, JumpDrops(chain[c.start..], moved));
    assert Vis(chain) - moved - (Vis(chain[c.start..]) - moved) == Outside(chain, c);
  }

  ghost predicate Ready(outer: seq<seq<Local>>, scope: seq<Local>, c: Ctx,
                        moved: set<Local>, k: Look) {
    && Good(outer, scope, moved)
    && CtxOk(outer, c)
    && moved <= k.moved
  }

  lemma LoopOwnStable(outer: seq<seq<Local>>, scope: seq<Local>, c: Ctx)
    requires CtxOk(outer, c)
    ensures CtxOk(outer + [scope], c)
    ensures LoopOwn(outer + [scope], c) == LoopOwn(outer, c)
    ensures c.InLoop? ==> Outside(outer + [scope], c) == Outside(outer, c)
  {
    if c.InLoop? { assert (outer + [scope])[..c.start] == outer[..c.start]; }
  }

  /** Owned by the audit's account: visible and not moved, by the drop pass. */
  lemma {:induction false} AuditsStmt(s: Stmt, outer: seq<seq<Local>>, scope: seq<Local>, c: Ctx,
                                      moved: set<Local>, k: Look)
    requires Ready(outer, scope, c, moved, k)
    requires StmtScoped(s, Vis(outer + [scope]), c.InLoop?) && StmtTame(s, outer, scope, c, moved)
    requires WalkStmt(s, k).errors == k.errors
    ensures var r := VisitStmt(s, outer, scope, Start(c), moved);
            var out := LoopOwn(outer, c);
            Found(AuditStmt(r.stmt, Vis(outer + [scope]) - moved, out, out), r.diverges,
                  Vis(outer + [r.scope]), r.moved)
    decreases s
  {
    var vis := Vis(outer + [scope]);
    var own := vis - moved;
    LoopOwnStable(outer, scope, c);
    match s
    case Let(x, e) => AuditsLet(s, outer, scope, moved, k);
    case Assign(x, e, _) =>
      WalkExprMoves(e, k);
      CheckedAt(e, vis, moved, k);
      var now := moved + MovedByBinding(e);
      AssignFollows(x, e, x !in now, own, vis, Look(moved, k.errors));
      assert own - MovedByBinding(e) + {x} == vis - (now - {x});
    case Do(e) =>
      EvalFollows(e, own, vis, k);
      assert own - MovedIn(e) == vis - (moved + MovedIn(e));
    case Return(v, _) =>
      var gone := if v.Some? then MovedByBinding(v.value) else {};
      ExitDropsAre(outer + [scope], moved + gone);
      var drops := ExitDrops(outer + [scope], moved + gone);
      ReturnFollows(v, drops, own, vis, k);
      ReturnSkips(v, moved);
    case If(cond, thn, els) => AuditsIf(s, outer, scope, c, moved, k);
    case While(cond, body) => AuditsWhile(s, outer, scope, c, moved, k);
    case Nested(b) => AuditsBlock(b, outer + [scope], c, moved, k);
      ContainedBlock(b, outer + [scope], c, moved, k);
      assert vis - (moved + VisitBlock(b, outer + [scope], Start(c), moved).escaped) ==
             vis - moved - VisitBlock(b, outer + [scope], Start(c), moved).escaped;
    case Break(_) => JumpFollows(outer + [scope], c, moved);
    case Continue(_) => JumpFollows(outer + [scope], c, moved);
  }

  lemma ReturnSkips(v: Option<Expr>, moved: set<Local>)
    ensures var now := moved + (if v.Some? then MovedIn(v.value) else {});
            var returning := if v.Some? && v.value.Use? then {v.value.x} else {};
            now + returning == moved + (if v.Some? then MovedByBinding(v.value) else {})
  {
  }

  lemma AuditsLet(s: Stmt, outer: seq<seq<Local>>, scope: seq<Local>, moved: set<Local>, k: Look)
    requires s.Let? && NoDup(Flat(outer + [scope])) && moved <= Vis(outer + [scope]) && moved <= k.moved
    requires s.x !in Vis(outer + [scope]) && ExprScoped(s.init, Vis(outer + [scope]))
    requires WalkStmt(s, k).errors == k.errors
    ensures Follow(Vis(outer + [scope]) - moved, SimpleEvents(s)) ==
            Some(After(s, Vis(outer + [scope])) - (moved + MovedByBinding(s.init)))
    ensures Owns(s.init) ==> Vis(outer + [scope + [s.x]]) == After(s, Vis(outer + [scope]))
  {
    var vis := Vis(outer + [scope]);
    WalkExprMoves(s.init, k);
    MovedInScope(s.init, vis);
    if Owns(s.init) {
      VisPush(outer, scope, s.x);
      BindFollows(s.x, s.init, vis - moved, vis, k);
      NewOwner(vis, moved, MovedByBinding(s.init), s.x);
    } else {
      EvalFollows(s.init, vis - moved, vis, k);
      assert vis - moved - MovedIn(s.init) == vis - (moved + MovedByBinding(s.init));
    }
  }

  lemma NewOwner(vis: set<Local>, moved: set<Local>, gone: set<Local>, x: Local)
    requires x !in vis && moved <= vis && gone <= vis
    ensures vis - moved - gone + {x} == vis + {x} - (moved + gone)
  {
  }

  /** The checker passes an expression under fewer moves as well. */
  lemma {:induction false} CheckedAt(e: Expr, vis: set<Local>, moved: set<Local>, k: Look)
    requires moved <= k.moved && WalkExpr(e, k).errors == k.errors
    ensures WalkExpr(e, Look(moved, k.errors)).errors == k.errors
    decreases e
  {
    if e.Call? { ArgsCheckedAt(e.args, vis, moved, k); }
  }

  lemma {:induction false} ArgsCheckedAt(args: seq<Expr>, vis: set<Local>, moved: set<Local>, k: Look)
    requires moved <= k.moved && WalkArgs(args, k).errors == k.errors
    ensures WalkArgs(args, Look(moved, k.errors)).errors == k.errors
    decreases args
  {
    if |args| > 0 {
      var j := Look(moved, k.errors);
      var k2, j2 := MarkOwningMove(WalkExpr(args[0], k), args[0]), MarkOwningMove(WalkExpr(args[0], j), args[0]);
      WalkExprMoves(args[0], k);
      WalkExprMoves(args[0], j);
      WalkArgsMoves(args[1..], k2);
      CheckedAt(args[0], vis, moved, k);
      ArgsCheckedAt(args[1..], vis, j2.moved, k2);
    }
  }

  lemma ArmsDiverge(s: Stmt, chain: seq<seq<Local>>, c: Ctx, moved: set<Local>)
    requires s.If?
    ensures AlwaysExits(s.thn) ==> VisitBlock(s.thn, chain, Start(c), moved).diverges
    ensures s.els.Some? && AlwaysExits(s.els.value) ==> VisitBlock(s.els.value, chain, Start(c), moved).diverges
  {
    if AlwaysExits(s.thn) { AlwaysExitsDiverges(s.thn, chain, Start(c), moved); }
    if s.els.Some? && AlwaysExits(s.els.value) { AlwaysExitsDiverges(s.els.value, chain, Start(c), moved); }
  }

  lemma {:induction false} AuditsIf(s: Stmt, outer: seq<seq<Local>>, scope: seq<Local>, c: Ctx,
                                    moved: set<Local>, k: Look)
    requires s.If? && Ready(outer, scope, c, moved, k)
    requires StmtScoped(s, Vis(outer + [scope]), c.InLoop?) && StmtTame(s, outer, scope, c, moved)
    requires WalkStmt(s, k).errors == k.errors
    ensures var r := VisitStmt(s, outer, scope, Start(c), moved);
            var out := LoopOwn(outer, c);
            Found(AuditStmt(r.stmt, Vis(outer + [scope]) - moved, out, out), r.diverges,
                  Vis(outer + [r.scope]), r.moved)
    decreases s, 0
  {
    var chain := outer + [scope];
    var vis, out := Vis(chain), LoopOwn(outer, c);
    var own := vis - moved;
    var snap := WalkExpr(s.cond, k);
    var t := WalkBlock(s.thn, snap);
    LoopOwnStable(outer, scope, c);
    WalkExprMoves(s.cond, k);
    ErrorsGrowBlock(s.thn, snap);
    if s.els.Some? { ErrorsGrowBlock(s.els.value, Look(snap.moved, t.errors)); }
    EvalFollows(s.cond, own, vis, k);
    assert own - MovedIn(s.cond) == own;
    AuditsBlock(s.thn, chain, c, moved, snap);
    ArmsDiverge(s, chain, c, moved);
    ContainedBlock(s.thn, chain, c, moved, snap);
    if s.els.Some? {
      AuditsBlock(s.els.value, chain, c, moved, Look(snap.moved, t.errors));
      ContainedBlock(s.els.value, chain, c, moved, Look(snap.moved, t.errors));
      AuditsJoin(s.cond, VisitBlock(s.thn, chain, Start(c), moved),
                 Some(VisitBlock(s.els.value, chain, Start(c), moved)), scope, own, vis, moved, out);
    } else {
      AuditsJoin(s.cond, VisitBlock(s.thn, chain, Start(c), moved), None, scope, own, vis, moved, out);
    }
  }

  /** An arm that falls through, with the drops of what only the other arm moved. */
  lemma ArmCompensated(arm: BlockOut, union: set<Local>, own: set<Local>, vis: set<Local>, moved: set<Local>,
                       out: Option<set<Local>>)
    requires AuditBlock(arm.block, own, out, out) == FallsWith(vis - (moved + arm.escaped))
    requires arm.escaped <= union <= vis && union !! moved
    ensures AuditBlock(WithFrees(arm.block, Sorted(union - arm.escaped)), own, out, out) == FallsWith(vis - (moved + union))
    ensures |Sorted(union - arm.escaped)| == 0 ==> union == arm.escaped
  {
    Compensated(arm.block, union - arm.escaped, own, vis - (moved + arm.escaped), out);
    assert vis - (moved + arm.escaped) - (union - arm.escaped) == vis - (moved + union);
    if |Sorted(union - arm.escaped)| == 0 { NoneMissing(union - arm.escaped); }
  }

  /** Compensating drops make both arms leave the same locals owned. */
  lemma AuditsJoin(cond: Expr, t: BlockOut, e: Option<BlockOut>, scope: seq<Local>,
                   own: set<Local>, vis: set<Local>, moved: set<Local>, out: Option<set<Local>>)
    requires own == vis - moved && Follow(own, EvalEvents(cond)) == Some(own)
    requires t.escaped <= vis && Found(AuditBlock(t.block, own, out, out), t.diverges, vis, moved + t.escaped)
    requires t.escaped !! moved && (e.Some? ==> e.value.escaped !! moved)
    requires e.Some? ==>
      e.value.escaped <= vis && Found(AuditBlock(e.value.block, own, out, out), e.value.diverges, vis, moved + e.value.escaped)
    ensures var r := JoinArms(cond, t, e, scope, moved);
            Found(AuditStmt(r.stmt, own, out, out), r.diverges, vis, r.moved)
  {
    var r := JoinArms(cond, t, e, scope, moved);
    var elseEscaped := if e.Some? then e.value.escaped else {};
    if t.diverges || (e.Some? && e.value.diverges) {
      assert moved + {} == moved;
    } else {
      var union := t.escaped + elseEscaped;
      ArmCompensated(t, union, own, vis, moved, out);
      if e.Some? {
        ArmCompensated(e.value, union, own, vis, moved, out);
      } else {
        var none := BlockOut(Block([], []), {}, false);
        assert AuditBlock(none.block, own, out, out) == FallsWith(own);
        assert vis - (moved + {}) == own;
        ArmCompensated(none, union, own, vis, moved, out);
      }
    }
  }

  lemma NoneMissing(s: set<Local>)
    requires |Sorted(s)| == 0
    ensures s == {}
  {
  }

  lemma Compensated(b: Block, missing: set<Local>, own: set<Local>, end: set<Local>, out: Option<set<Local>>)
    requires AuditBlock(b, own, out, out) == FallsWith(end) && missing <= end
    ensures AuditBlock(WithFrees(b, Sorted(missing)), own, out, out) == FallsWith(end - missing)
  {
    SortedIs(missing);
    DropEventsConcat(b.heapToFree, Sorted(missing));
    var mid := AuditStmts(b.stmts, own, out, out).own;
    FollowConcat(mid, DropEvents(b.heapToFree), DropEvents(Sorted(missing)));
    FollowDrops(end, Sorted(missing));
  }

  lemma {:induction false} AuditsWhile(s: Stmt, outer: seq<seq<Local>>, scope: seq<Local>, c: Ctx,
                                       moved: set<Local>, k: Look)
    requires s.While? && Ready(outer, scope, c, moved, k)
    requires StmtScoped(s, Vis(outer + [scope]), c.InLoop?) && StmtTame(s, outer, scope, c, moved)
    requires WalkStmt(s, k).errors == k.errors
    ensures var r := VisitStmt(s, outer, scope, Start(c), moved);
            var out := LoopOwn(outer, c);
            Found(AuditStmt(r.stmt, Vis(outer + [scope]) - moved, out, out), r.diverges,
                  Vis(outer + [r.scope]), r.moved)
    decreases s, 0
  {
    var chain := outer + [scope];
    var vis := Vis(chain);
    var own := vis - moved;
    var now := WalkExpr(s.cond, k);
    var inner := InLoop(|chain|, moved);
    WalkExprMoves(s.cond, k);
    var first := WalkBlock(s.body, now);
    var last := if first.moved <= now.moved then now else Look(now.moved + first.moved, now.errors);
    ErrorsGrowBlock(s.body, last);
    EvalFollows(s.cond, own, vis, k);
    assert own - MovedIn(s.cond) == own;
    assert chain[..|chain|] == chain;
    assert LoopOwn(chain, inner) == Some(own);
    AuditsBlock(s.body, chain, inner, moved, last);
    ContainedBlock(s.body, chain, inner, moved, last);
    var r := VisitBlock(s.body, chain, Some(|chain|), moved);
    if !r.diverges {
      assert vis - (moved + r.escaped) == own;
    }
  }

  lemma {:induction false} AuditsStmts(ss: seq<Stmt>, outer: seq<seq<Local>>, scope: seq<Local>, c: Ctx,
                                       moved: set<Local>, k: Look)
    requires Ready(outer, scope, c, moved, k)
    requires StmtsScoped(ss, Vis(outer + [scope]), c.InLoop?) && StmtsTame(ss, outer, scope, c, moved)
    requires WalkStmts(ss, k).errors == k.errors
    ensures var r := VisitStmts(ss, outer, scope, Start(c), moved);
            var out := LoopOwn(outer, c);
            Found(AuditStmts(r.stmts, Vis(outer + [scope]) - moved, out, out), r.diverges,
                  Vis(outer + [r.scope]), r.moved)
    decreases ss
  {
    if |ss| > 0 {
      var next := WalkStmt(ss[0], k);
      ErrorsGrowStmt(ss[0], k);
      ErrorsGrowStmts(ss[1..], next);
      AuditsStmt(ss[0], outer, scope, c, moved, k);
      ContainedStmt(ss[0], outer, scope, c, moved, k);
      var h := VisitStmt(ss[0], outer, scope, Start(c), moved);
      AuditsStmts(ss[1..], outer, h.scope, c, h.moved, next);
      var t := VisitStmts(ss[1..], outer, h.scope, Start(c), h.moved);
      assert ([h.stmt] + t.stmts)[1..] == t.stmts;
    }
  }

  lemma {:induction false} AuditsBlock(b: Block, chain: seq<seq<Local>>, c: Ctx, inherited: set<Local>, k: Look)
    requires NoDup(Flat(chain)) && inherited <= Vis(chain) && CtxOk(chain, c)
    requires BlockScoped(b, Vis(chain), c.InLoop?) && BlockTame(b, chain, c, inherited)
    requires inherited <= k.moved && WalkBlock(b, k).errors == k.errors
    ensures var r := VisitBlock(b, chain, Start(c), inherited);
            var out := LoopOwn(chain, c);
            (r.diverges || Restores(b, chain, c, inherited)) ==>
              Found(AuditBlock(r.block, Vis(chain) - inherited, out, out), r.diverges, Vis(chain), inherited + r.escaped)
    decreases b
  {
    GoodEntry(chain, inherited);
    AuditsStmts(b.stmts, chain, [], c, inherited, k);
    ContainedStmts(b.stmts, chain, [], c, inherited, k);
    var r := VisitStmts(b.stmts, chain, [], Start(c), inherited);
    BlockEnd(chain, r.scope, inherited, r.moved);
    if !r.diverges && inherited <= r.moved {
      SurvivorsAre(r.scope, r.moved);
      var end := Vis(chain + [r.scope]) - r.moved;
      FollowDrops(end, Survivors(r.scope, r.moved));
      assert end - Elems(Survivors(r.scope, r.moved)) == Vis(chain) - (inherited + (r.moved - inherited - Elems(r.scope)));
    }
  }

  // ----------------------------------------------------------------- theorems

  /** Accepted, well-formed bodies are annotated correctly. */
  lemma ElaborationPasses(body: Block)
    requires BodyScoped(body) && BodyTame(body) && Accepts(body)
    ensures Passes(Elaborate(body))
  {
    assert Vis([]) == {} && Vis([]) - {} == {};
    AuditsBlock(body, [], NoLoop, {}, Look({}, 0));
    ContainedBlock(body, [], NoLoop, {}, Look({}, 0));
  }

  /** Every owned value of an accepted, well-formed body is released exactly once,
      freed here or transferred out, on every run: whatever the branches taken, the
      number of iterations and the early exits; and no run reads or frees a dead
      cell, not even one that never ends. */
  lemma ExactlyOnceRelease(body: Block)
    requires BodyScoped(body) && BodyTame(body) && Accepts(body)
    ensures AllRunsSafe(Elaborate(body))
  {
    ElaborationPasses(body);
    AuditIsExact(Elaborate(body));
    DisciplinedRunsAreSafe(Elaborate(body));
  }
}
