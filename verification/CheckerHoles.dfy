/** Three accepted bodies in which a local is read after its value was given away: one
    for each thing `NoIterationReadsMovedValue` has to ask of a loop.  And a body that is
    refused although no run of it does that. */
module CheckerHoles {
  import opened Options
  import opened Hir
  import opened Ownership
  import opened Paths
  import opened MoveChecker
  import opened LoopRuns
  import opened Counterexamples

  /** The checker passes the body, and some run of it uses a value given away earlier. */
  ghost predicate Fooled(body: Block) {
    Accepts(body) && exists ch: seq<bool> :: !NoStaleUse({}, RunBlock(body, ch).events)
  }

  // -------------------------------------------------------------------- unrolling

  lemma Ran(s: Stmt, rest: seq<Stmt>, ch: seq<bool>)
    ensures var p := RunStmt(s, ch);
            RunStmts([s] + rest, ch) ==
            if p.flow.Falls? then Prefixed(p.events, RunStmts(rest, p.rest)) else p
  {
    assert ([s] + rest)[0] == s && ([s] + rest)[1..] == rest;
  }

  /** Evaluating `make`, giving a value away, and both in a row. */
  lemma Events(x: Local)
    ensures EvalEvents(Eat(x)) == [Read(x), GiveAway(x)]
    ensures BindEvents(x, MAKE) == [Fresh(x)]
    ensures AssignEvents(x, MAKE, true) == [Drop(x), Fresh(x)]
    ensures !Mentions(MAKE, x)
  {
    AnArg(x, CLEAN, {x});
    assert CallEvents([]) == [];
  }

  /** Something is read after it was given away, whatever happens before and after. */
  lemma {:induction false} ReadAfterGiving(gone: set<Local>, before: seq<Event>, x: Local, after: seq<Event>)
    ensures !NoStaleUse(gone, before + ([GiveAway(x)] + ([Read(x)] + after)))
  {
    var now := Gone(gone, before);
    StaleConcat(gone, before, [GiveAway(x)] + ([Read(x)] + after));
    StaleConcat(now, [GiveAway(x)], [Read(x)] + after);
    StaleConcat(GoneAfter(now, GiveAway(x)), [Read(x)], after);
    One(now, GiveAway(x));
    One(GoneAfter(now, GiveAway(x)), Read(x));
  }

  /** Storing a new value makes the local usable again. */
  lemma Stored(m: set<Local>, dropOld: bool)
    requires m <= {0}
    ensures WalkStmt(Let(0, MAKE), CLEAN) == CLEAN
    ensures WalkStmt(Assign(0, MAKE, dropOld), Look(m, 0)) == CLEAN
  {
    assert MAKE.args == [] && WalkArgs(MAKE.args, Look(m, 0)) == Look(m, 0);
    assert WalkExpr(MAKE, CLEAN) == CLEAN;
    assert m - {0} == {} && {} - {0} == {};
  }

  // ------------------------- the condition is not looked at again after the body

  const REFILL_AND_EAT := Body([Assign(0, MAKE, true)] + [Do(Eat(0))])
  const PEEKING := While(Borrow(0), REFILL_AND_EAT)

  /** `let a = make; while (peek(&a)) { a = make; eat(a); }` */
  const STALE_CONDITION := Body([Let(0, MAKE)] + [PEEKING])

  lemma StaleCondition()
    ensures Fooled(STALE_CONDITION)
  {
    Alone(PEEKING);
    Alone(Do(Eat(0)));
    AnArg(0, CLEAN, {0});
    Stored({}, true);
    Walked(Let(0, MAKE), [PEEKING], CLEAN);
    Walked(PEEKING, [], CLEAN);
    forall m: set<Local> | m <= {0} ensures WalkBlock(REFILL_AND_EAT, Look(m, 0)) == Look({0}, 0) {
      Stored(m, true);
      AnArg(0, CLEAN, {0});
      Walked(Assign(0, MAKE, true), [Do(Eat(0))], Look(m, 0));
      Walked(Do(Eat(0)), [], CLEAN);
      assert m - {0} == {} && {} + {0} == {0};
    }
    assert CLEAN.moved + {0} == {0};
    StaleConditionRuns();
  }

  /** One turn of the loop body. */
  lemma RefillAndEatRuns()
    ensures RunBlock(REFILL_AND_EAT, []) == Path([Drop(0), Fresh(0), Read(0), GiveAway(0)], Falls, [])
  {
    Events(0);
    Alone(Do(Eat(0)));
    Ran(Assign(0, MAKE, true), [Do(Eat(0))], []);
    Ran(Do(Eat(0)), [], []);
    assert [Drop(0), Fresh(0)] + ([Read(0), GiveAway(0)] + []) + [] == [Drop(0), Fresh(0), Read(0), GiveAway(0)];
  }

  lemma PeekingRuns()
    ensures RunStmt(PEEKING, [true]) == Path([Read(0), Drop(0), Fresh(0), Read(0), GiveAway(0), Read(0)], Pending, [])
  {
    RefillAndEatRuns();
    assert [true][1..] == [];
    assert RunLoop(Borrow(0), REFILL_AND_EAT, []) == Path([Read(0)], Pending, []);
    assert RunStmt(PEEKING, [true]) == RunLoop(Borrow(0), REFILL_AND_EAT, [true]);
    var turn := [Drop(0), Fresh(0), Read(0), GiveAway(0)];
    assert [Read(0)] + turn + [Read(0)] == [Read(0), Drop(0), Fresh(0), Read(0), GiveAway(0), Read(0)];
  }

  lemma StaleConditionRuns()
    ensures !NoStaleUse({}, RunBlock(STALE_CONDITION, [true]).events)
  {
    Events(0);
    Alone(PEEKING);
    PeekingRuns();
    assert RunStmt(Let(0, MAKE), [true]) == Path([Fresh(0)], Falls, [true]);
    hide RunLoop, RunStmt, RunBlock, RunStmts, EvalEvents, NoStaleUse;
    NothingRuns(RunStmt(PEEKING, [true]).rest);
    BodyRuns(STALE_CONDITION, [true]);
    Ran(Let(0, MAKE), [PEEKING], [true]);
    Ran(PEEKING, [], [true]);
    ReadAfterGiving({}, [Fresh(0), Read(0), Drop(0), Fresh(0), Read(0)], 0, []);
    assert RunBlock(STALE_CONDITION, [true]).events ==
           [Fresh(0), Read(0), Drop(0), Fresh(0), Read(0)] + ([GiveAway(0)] + ([Read(0)] + []));
  }

  // ----------------------------- a move on the way to `continue` is forgotten

  const SKIP := If(Lit, Body([Do(Eat(0))] + [Continue([])]), None)
  const TURN := Body([Do(Borrow(0))] + [SKIP])
  const TURNING := While(Lit, TURN)

  /** `let a = make; while (..) { peek(&a); if (..) { eat(a); continue; } }` */
  const MOVED_BEFORE_CONTINUE := Body([Let(0, MAKE)] + [TURNING])

  lemma MovedBeforeContinue()
    ensures Fooled(MOVED_BEFORE_CONTINUE)
  {
    Alone(TURNING);
    Alone(SKIP);
    Alone(Continue([]));
    AnArg(0, CLEAN, {0});
    assert {} + {0} == {0};
    Stored({}, true);
    Walked(Let(0, MAKE), [TURNING], CLEAN);
    Walked(TURNING, [], CLEAN);
    Walked(Do(Borrow(0)), [SKIP], CLEAN);
    Walked(SKIP, [], CLEAN);
    Walked(Do(Eat(0)), [Continue([])], CLEAN);
    Walked(Continue([]), [], Look({0}, 0));
    assert AlwaysExits(SKIP.thn);
    assert WalkStmt(SKIP, CLEAN) == CLEAN;
    assert WalkLoop(TURN, CLEAN) == CLEAN;
    MovedBeforeContinueRuns();
  }

  lemma MovedBeforeContinueRuns()
    ensures !NoStaleUse({}, RunBlock(MOVED_BEFORE_CONTINUE, [true] + ([true] + [true])).events)
  {
    var ch := [true] + ([true] + [true]);
    Events(0);
    Alone(TURNING);
    Ran(Let(0, MAKE), [TURNING], ch);
    Ran(TURNING, [], ch);
    assert ch[1..] == [true] + [true] && ([true] + [true])[1..] == [true] && [true][1..] == [];
    TurnLeaves([true]);
    TurnStops();
    var first, second := RunBlock(TURN, [true] + [true]), RunBlock(TURN, []);
    assert RunLoop(Lit, TURN, [true]).events == [] + second.events;
    assert RunLoop(Lit, TURN, ch).events == [] + first.events + ([] + second.events);
    ReadAfterGiving({}, [Fresh(0), Read(0), Read(0)], 0, []);
    assert RunBlock(MOVED_BEFORE_CONTINUE, ch).events ==
           [Fresh(0), Read(0), Read(0)] + ([GiveAway(0)] + ([Read(0)] + []));
  }

  lemma TurnStops()
    ensures RunBlock(TURN, []) == Path([Read(0)], Pending, [])
  {
    Alone(SKIP);
    Ran(Do(Borrow(0)), [SKIP], []);
    Ran(SKIP, [], []);
    assert [Read(0)] + [] == [Read(0)];
  }

  lemma TurnLeaves(ch: seq<bool>)
    ensures RunBlock(TURN, [true] + ch) == Path([Read(0), Read(0), GiveAway(0)], Continued, ch)
  {
    var all := [true] + ch;
    assert all[1..] == ch;
    Alone(SKIP);
    Ran(Do(Borrow(0)), [SKIP], all);
    Ran(SKIP, [], all);
    LeaveRuns(ch);
    assert [Read(0)] + ([] + [Read(0), GiveAway(0)]) == [Read(0), Read(0), GiveAway(0)];
  }

  lemma LeaveRuns(ch: seq<bool>)
    ensures RunBlock(SKIP.thn, ch) == Path([Read(0), GiveAway(0)], Continued, ch)
  {
    Events(0);
    Alone(Continue([]));
    Ran(Do(Eat(0)), [Continue([])], ch);
    Ran(Continue([]), [], ch);
    assert DropEvents([]) == [];
    assert [Read(0), GiveAway(0)] + [] == [Read(0), GiveAway(0)];
  }

  // --------------------------- a refill in a loop that may not run counts for sure

  const REFILLING := While(Lit, Body([Assign(0, MAKE, true)]))

  /** `let a = make; eat(a); while (..) { a = make; } peek(&a);` */
  const REFILLED_BY_LOOP := Body([Let(0, MAKE)] + ([Do(Eat(0))] + ([REFILLING] + [Do(Borrow(0))])))

  lemma RefilledByLoop()
    ensures Fooled(REFILLED_BY_LOOP)
  {
    var refill := Assign(0, MAKE, true);
    Alone(Do(Borrow(0)));
    Alone(refill);
    AnArg(0, CLEAN, {0});
    assert {} + {0} == {0};
    Stored({}, true);
    Stored({0}, true);
    Walked(Let(0, MAKE), [Do(Eat(0))] + ([REFILLING] + [Do(Borrow(0))]), CLEAN);
    Walked(Do(Eat(0)), [REFILLING] + [Do(Borrow(0))], CLEAN);
    Walked(REFILLING, [Do(Borrow(0))], Look({0}, 0));
    Walked(Do(Borrow(0)), [], CLEAN);
    Walked(refill, [], Look({0}, 0));
    assert WalkLoop(REFILLING.body, Look({0}, 0)) == CLEAN;
    RefilledByLoopRuns();
  }

  lemma RefillingSkipped()
    ensures RunStmt(REFILLING, [false]) == Path([], Falls, [])
    ensures RunStmt(Let(0, MAKE), [false]) == Path([Fresh(0)], Falls, [false])
    ensures RunStmt(Do(Eat(0)), [false]) == Path([Read(0), GiveAway(0)], Falls, [false])
    ensures RunStmt(Do(Borrow(0)), []) == Path([Read(0)], Falls, [])
  {
    Events(0);
  }

  lemma NothingRuns(ch: seq<bool>)
    ensures RunStmts([], ch) == Path([], Falls, ch)
  {
  }

  lemma BodyRuns(b: Block, ch: seq<bool>)
    requires b.heapToFree == []
    ensures RunBlock(b, ch).events == RunStmts(b.stmts, ch).events
  {
    assert DropEvents([]) == [];
    var p := RunStmts(b.stmts, ch);
    assert p.events + [] == p.events;
  }

  lemma RefilledByLoopRuns()
    ensures !NoStaleUse({}, RunBlock(REFILLED_BY_LOOP, [false]).events)
  {
    hide EvalEvents, BindEvents, RunStmts, RunStmt, RunBlock, NoStaleUse;
    RefillingSkipped();
    BodyRuns(REFILLED_BY_LOOP, [false]);
    Alone(Do(Borrow(0)));
    Ran(Let(0, MAKE), [Do(Eat(0))] + ([REFILLING] + [Do(Borrow(0))]), [false]);
    Ran(Do(Eat(0)), [REFILLING] + [Do(Borrow(0))], [false]);
    Ran(REFILLING, [Do(Borrow(0))], [false]);
    NothingRuns([]);
    Ran(Do(Borrow(0)), [], []);
    ReadAfterGiving({}, [Fresh(0), Read(0)], 0, []);
    assert RunBlock(REFILLED_BY_LOOP, [false]).events ==
           [Fresh(0), Read(0)] + ([GiveAway(0)] + ([Read(0)] + []));
  }

  // ------------------------------ the checker goes by the order of the arguments

  const BOTH := Call(false, [Use(0)] + ([Borrow(0)] + []))

  /** `let a = make; eat(a, &a);` - handing `a` over is the last thing that happens. */
  const LATE_BORROW := Body([Let(0, MAKE)] + [Do(BOTH)])

  /** Refused, although no run uses anything it gave away. */
  lemma LateBorrow()
    ensures !Accepts(LATE_BORROW) && forall ch :: NoStaleUse({}, RunBlock(LATE_BORROW, ch).events)
  {
    Alone(Do(BOTH));
    Stored({}, true);
    Walked(Let(0, MAKE), [Do(BOTH)], CLEAN);
    Walked(Do(BOTH), [], CLEAN);
    var last := [Borrow(0)] + [];
    assert BOTH.args[0] == Use(0) && BOTH.args[1..] == last && last[1..] == [];
    assert {} + {0} == {0};
    assert WalkArgs(last, Look({0}, 0)) == WalkArgs([], Look({0}, 1)) == Look({0}, 1);
    assert MarkOwningMove(WalkExpr(Use(0), CLEAN), Use(0)) == Look({0}, 0);
    assert WalkArgs(BOTH.args, CLEAN) == WalkArgs(last, Look({0}, 0));
    assert WalkStmt(Do(BOTH), CLEAN) == WalkArgs(BOTH.args, CLEAN);
    forall ch ensures NoStaleUse({}, RunBlock(LATE_BORROW, ch).events) { LateBorrowRuns(ch); }
  }

  lemma BothEvents()
    ensures EvalEvents(BOTH) == [Read(0), Read(0), GiveAway(0)]
  {
    var last := [Borrow(0)] + [];
    assert BOTH.args[0] == Use(0) && BOTH.args[1..] == last && last[1..] == [];
    assert ArgEvents(last) == [Read(0)] + ArgEvents([]) == [Read(0)];
    assert ArgEvents(BOTH.args) == [Read(0)] + [Read(0)];
    assert Handover(last) == [] + Handover([]) == [];
    assert Handover(BOTH.args) == [GiveAway(0)] + [] == [GiveAway(0)];
    assert EvalEvents(BOTH) == [Read(0)] + [Read(0)] + [GiveAway(0)] + [];
  }

  lemma LateBorrowRuns(ch: seq<bool>)
    ensures NoStaleUse({}, RunBlock(LATE_BORROW, ch).events)
  {
    Events(0);
    BothEvents();
    Alone(Do(BOTH));
    Ran(Let(0, MAKE), [Do(BOTH)], ch);
    Ran(Do(BOTH), [], ch);
    hide EvalEvents, BindEvents, RunStmts;
    var rest := [Read(0), Read(0), GiveAway(0)];
    assert RunBlock(LATE_BORROW, ch).events == [Fresh(0)] + (rest + []) + [];
    assert [Fresh(0)] + (rest + []) + [] == [Fresh(0)] + ([Read(0)] + ([Read(0)] + [GiveAway(0)]));
    StaleConcat({}, [Fresh(0)], [Read(0)] + ([Read(0)] + [GiveAway(0)]));
    StaleConcat({}, [Read(0)], [Read(0)] + [GiveAway(0)]);
    StaleConcat({}, [Read(0)], [GiveAway(0)]);
    assert {} - {0} == {};
    One({}, Fresh(0));
    One({}, Read(0));
    One({}, GiveAway(0));
  }
}
