/** Why the exact condition is about bodies that rename nothing: an accepted body in which
    the drop pass loses track of who owns a value, and every run is safe all the same,
    because two slots hold the cell and the wrong one is freed. */
module Renaming {
  import opened Options
  import opened Hir
  import opened Ownership
  import opened Paths
  import opened Audit
  import opened Memory
  import opened DropPass
  import opened MoveChecker
  import opened Scopes
  import opened WellFormed
  import opened Counterexamples
  import opened CheckerHoles

  const TAKE := Assign(1, Use(0), true)
  const TAKE_AND_LEAVE := If(Lit, Body([TAKE] + [Break([])]), None)
  const TAKING := While(Lit, Body([TAKE_AND_LEAVE]))

  /** `let a = make; let b = make; eat(b); while (..) { if (..) { b = a; break; } }` */
  const RENAMED := Body([Let(0, MAKE)] + ([Let(1, MAKE)] + ([Do(Eat(1))] + [TAKING])))

  const TAKE_OUT := Assign(1, Use(0), false)
  const TAKE_AND_LEAVE_OUT := If(Lit, Body([TAKE_OUT] + [Break([])]), None)
  const TAKING_OUT := While(Lit, Body([TAKE_AND_LEAVE_OUT]))
  const RENAMED_OUT := Block([Let(0, MAKE)] + ([Let(1, MAKE)] + ([Do(Eat(1))] + [TAKING_OUT])), [0])

  lemma RenamedAccepted()
    ensures BodyScoped(RENAMED) && Accepts(RENAMED)
  {
    var two := [Let(1, MAKE)] + ([Do(Eat(1))] + [TAKING]);
    Alone(TAKING);
    Alone(TAKE_AND_LEAVE);
    Alone(Break([]));
    AnArg(1, CLEAN, {0, 1});
    assert {} + {0} == {0} && {0} + {1} == {0, 1} && {} + {1} == {1};
    Scoped(Let(0, MAKE), two, {}, false);
    Scoped(Let(1, MAKE), [Do(Eat(1))] + [TAKING], {0}, false);
    Scoped(Do(Eat(1)), [TAKING], {0, 1}, false);
    Scoped(TAKING, [], {0, 1}, false);
    Scoped(TAKE_AND_LEAVE, [], {0, 1}, true);
    Scoped(TAKE, [Break([])], {0, 1}, true);
    Scoped(Break([]), [], {0, 1}, true);
    RenamedWalked();
  }

  lemma RenamedWalked()
    ensures Accepts(RENAMED)
  {
    var two := [Let(1, MAKE)] + ([Do(Eat(1))] + [TAKING]);
    Alone(TAKING);
    Alone(TAKE_AND_LEAVE);
    AnArg(1, CLEAN, {0, 1});
    Walked(Let(0, MAKE), two, CLEAN);
    Walked(Let(1, MAKE), [Do(Eat(1))] + [TAKING], CLEAN);
    Walked(Do(Eat(1)), [TAKING], CLEAN);
    Walked(TAKING, [], Look({1}, 0));
    Walked(TAKE_AND_LEAVE, [], Look({1}, 0));
    assert {} + {1} == {1};
    assert forall x: Local :: WalkStmt(Let(x, MAKE), CLEAN).moved == {};
    assert WalkStmt(Let(0, MAKE), CLEAN) == CLEAN && WalkStmt(Let(1, MAKE), CLEAN) == CLEAN;
    ArmWalked();
    assert WalkStmt(TAKE_AND_LEAVE, Look({1}, 0)) == Look({1}, 0);
    assert WalkLoop(TAKING.body, Look({1}, 0)) == Look({1}, 0);
  }

  lemma ArmWalked()
    ensures AlwaysExits(TAKE_AND_LEAVE.thn) && WalkBlock(TAKE_AND_LEAVE.thn, Look({1}, 0)).errors == 0
  {
    Alone(Break([]));
    Walked(TAKE, [Break([])], Look({1}, 0));
    Walked(Break([]), [], WalkStmt(TAKE, Look({1}, 0)));
  }

  // ------------------------------------------------------------- what the pass makes of it

  lemma RenamedElaborated()
    ensures Elaborate(RENAMED) == RENAMED_OUT
  {
    var three := [Do(Eat(1))] + [TAKING];
    Alone(TAKING);
    AnArg(1, CLEAN, {0, 1});
    MakeVisited(0, []);
    MakeVisited(1, [0]);
    assert [] + [0] == [0] && [0] + [1] == [0, 1] && {} + {1} == {1};
    Visited(Let(0, MAKE), [Let(1, MAKE)] + three, [], [], None, {});
    Visited(Let(1, MAKE), three, [], [0], None, {});
    Visited(Do(Eat(1)), [TAKING], [], [0, 1], None, {});
    TakingVisited();
    Visited(TAKING, [], [], [0, 1], None, {1});
    assert [0, 1][1..] == [1] && [1][1..] == [];
    assert Survivors([1], {1}) == Survivors([], {1}) + [] == [];
    assert Survivors([0, 1], {1}) == Survivors([1], {1}) + [0] == [0];
  }

  lemma MakeVisited(x: Local, scope: seq<Local>)
    ensures VisitStmt(Let(x, MAKE), [], scope, None, {}) == StmtOut(Let(x, MAKE), scope + [x], {}, false)
  {
  }

  lemma TakingVisited()
    ensures VisitStmt(TAKING, [], [0, 1], None, {1}) == StmtOut(TAKING_OUT, [0, 1], {1}, false)
  {
    var chain: seq<seq<Local>> := [] + [[0, 1]];
    Alone(TAKE_AND_LEAVE);
    ArmVisited(chain);
    Visited(TAKE_AND_LEAVE, [], chain, [], Some(1), {1});
    assert VisitBlock(TAKING.body, chain, Some(1), {1}).block == TAKING_OUT.body;
  }

  lemma ArmVisited(chain: seq<seq<Local>>)
    requires chain == [[0, 1]]
    ensures VisitStmt(TAKE_AND_LEAVE, chain, [], Some(1), {1}) == StmtOut(TAKE_AND_LEAVE_OUT, [], {1}, false)
  {
    var inner := chain + [[]];
    Alone(Break([]));
    Visited(TAKE, [Break([])], inner, [], Some(1), {1});
    Visited(Break([]), [], inner, [], Some(1), {0});
    assert {1} + {0} - {1} == {0};
    assert VisitStmt(TAKE, inner, [], Some(1), {1}) == StmtOut(TAKE_OUT, [], {0}, false);
    var here := inner + [[]];
    var two, one, none: seq<seq<Local>> := [[], []], [[]], [];
    assert here[1..] == two && two[1..] == one && one[1..] == none;
    assert JumpDrops(one, {0}) == [] && JumpDrops(two, {0}) == [];
    assert VisitStmt(Break([]), inner, [], Some(1), {0}) == StmtOut(Break([]), [], {0}, true);
    assert VisitBlock(TAKE_AND_LEAVE.thn, inner, Some(1), {1}).block == TAKE_AND_LEAVE_OUT.thn;
    assert VisitBlock(TAKE_AND_LEAVE.thn, inner, Some(1), {1}).diverges;
  }

  // --------------------------------------------------------------- what its runs are

  lemma TakingRuns(ch: seq<bool>)
    ensures var p := RunLoop(Lit, TAKING_OUT.body, ch);
            && (p.flow.Falls? || p.flow.Pending?)
            && (p.events == [] || p.events == [Read(0), Hand(0, 1)])
    decreases |ch|
  {
    if |ch| > 0 && ch[0] {
      TakingTurn(ch[1..]);
      var once := RunBlock(TAKING_OUT.body, ch[1..]);
      if once.flow.Falls? { TakingRuns(once.rest); }
    }
  }

  lemma TakingTurn(ch: seq<bool>)
    ensures var p := RunBlock(TAKING_OUT.body, ch);
            if |ch| == 0 then p == Path([], Pending, ch)
            else if ch[0] then p == Path([Read(0), Hand(0, 1)], Broke, ch[1..])
            else p == Path([], Falls, ch[1..])
  {
    Alone(TAKE_AND_LEAVE_OUT);
    Ran(TAKE_AND_LEAVE_OUT, [], ch);
    if |ch| > 0 && ch[0] {
      TakeRuns(ch[1..]);
      assert [] + [Read(0), Hand(0, 1)] == [Read(0), Hand(0, 1)];
    } else if |ch| > 0 {
      assert RunStmt(TAKE_AND_LEAVE_OUT, ch) == Path([], Falls, ch[1..]);
      assert [] + [] + DropEvents([]) == [];
    }
  }

  lemma TakeRuns(ch: seq<bool>)
    ensures RunBlock(TAKE_AND_LEAVE_OUT.thn, ch) == Path([Read(0), Hand(0, 1)], Broke, ch)
  {
    Alone(Break([]));
    Ran(TAKE_OUT, [Break([])], ch);
    Ran(Break([]), [], ch);
    assert DropEvents([]) == [];
    assert AssignEvents(1, Use(0), false) == [] + [Read(0), Hand(0, 1)] == [Read(0), Hand(0, 1)];
    assert [Read(0), Hand(0, 1)] + [] == [Read(0), Hand(0, 1)];
  }

  lemma FrontRuns(ch: seq<bool>)
    ensures RunStmt(Let(0, MAKE), ch) == Path([Fresh(0)], Falls, ch)
    ensures RunStmt(Let(1, MAKE), ch) == Path([Fresh(1)], Falls, ch)
    ensures RunStmt(Do(Eat(1)), ch) == Path([Read(1), GiveAway(1)], Falls, ch)
    ensures RunStmt(TAKING_OUT, ch) == RunLoop(Lit, TAKING_OUT.body, ch)
  {
    Events(0);
    Events(1);
  }

  lemma RenamedRuns(ch: seq<bool>)
    ensures var p, q := RunBlock(RENAMED_OUT, ch), RunLoop(Lit, TAKING_OUT.body, ch);
            && p.flow == q.flow
            && p.events == [Fresh(0), Fresh(1), Read(1), GiveAway(1)] + q.events + (if q.flow.Falls? then [Drop(0)] else [])
  {
    hide RunLoop, RunStmt;
    var three := [Do(Eat(1))] + [TAKING_OUT];
    FrontRuns(ch);
    Alone(TAKING_OUT);
    Ran(Let(0, MAKE), [Let(1, MAKE)] + three, ch);
    Ran(Let(1, MAKE), three, ch);
    Ran(Do(Eat(1)), [TAKING_OUT], ch);
    Ran(TAKING_OUT, [], ch);
    var q := RunLoop(Lit, TAKING_OUT.body, ch);
    var r := RunStmts(RENAMED_OUT.stmts, ch);
    TakingRuns(ch);
    assert q.events + [] == q.events;
    assert r == Path([Fresh(0)] + ([Fresh(1)] + ([Read(1), GiveAway(1)] + q.events)), q.flow, q.rest);
    assert DropEvents([0]) == [Drop(0)];
  }

  // ------------------------------------------------------------------- safe, not audited

  lemma Steps(m: Mem, e: Event, es: seq<Event>)
    ensures Execute(m, [e] + es) == Execute(Perform(m, e), es)
  {
  }

  /** Memory after both values are made and the second one is eaten. */
  const EATEN := Mem(map[0 := 0, 1 := 1], 2, multiset{1}, false)

  lemma StartExecuted(es: seq<Event>)
    ensures Execute(EMPTY, [Fresh(0), Fresh(1), Read(1), GiveAway(1)] + es) == Execute(EATEN, es)
  {
    assert [Fresh(0), Fresh(1), Read(1), GiveAway(1)] + es ==
           [Fresh(0)] + ([Fresh(1)] + ([Read(1)] + ([GiveAway(1)] + es)));
    Steps(EMPTY, Fresh(0), [Fresh(1)] + ([Read(1)] + ([GiveAway(1)] + es)));
    var one := Perform(EMPTY, Fresh(0));
    Steps(one, Fresh(1), [Read(1)] + ([GiveAway(1)] + es));
    var two := Perform(one, Fresh(1));
    assert two == Mem(map[0 := 0, 1 := 1], 2, multiset{}, false);
    Steps(two, Read(1), [GiveAway(1)] + es);
    Steps(two, GiveAway(1), es);
    assert multiset{} + multiset{1} == multiset{1};
  }

  lemma RestExecuted(taken: bool, ended: bool)
    ensures var es := (if taken then [Read(0), Hand(0, 1)] else []) + (if ended then [Drop(0)] else []);
            var m := Execute(EATEN, es);
            !m.misuse && m.next == 2 && m.released == (if ended then multiset{0, 1} else multiset{1})
  {
    var last := if ended then [Drop(0)] else [];
    var m := EATEN;
    if taken {
      assert [Read(0), Hand(0, 1)] + last == [Read(0)] + ([Hand(0, 1)] + last);
      Steps(m, Read(0), [Hand(0, 1)] + last);
      Steps(m, Hand(0, 1), last);
      m := Perform(EATEN, Hand(0, 1));
      assert !m.misuse && m.slot[0] == 0;
    } else {
      assert [] + last == last;
    }
    if ended {
      Steps(m, Drop(0), []);
      assert [Drop(0)] + [] == [Drop(0)];
      assert multiset{1} + multiset{0} == multiset{0, 1};
    }
  }

  /** Every run releases each cell once. */
  lemma RenamedSafe()
    ensures AllRunsSafe(Elaborate(RENAMED))
  {
    RenamedElaborated();
    forall ch: seq<bool> ensures RunIsSafe(RunBlock(RENAMED_OUT, ch)) {
      RenamedRuns(ch);
      TakingRuns(ch);
      var q := RunLoop(Lit, TAKING_OUT.body, ch);
      var last := if q.flow.Falls? then [Drop(0)] else [];
      var start := [Fresh(0), Fresh(1), Read(1), GiveAway(1)];
      assert start + q.events + last == start + (q.events + last);
      StartExecuted(q.events + last);
      RestExecuted(q.events != [], q.flow.Falls?);
    }
  }

  /** And yet the break is taken owning `b` where `a` is expected. */
  lemma RenamedFailsAudit()
    ensures !Passes(Elaborate(RENAMED))
  {
    var three := [Do(Eat(1))] + [TAKING_OUT];
    RenamedElaborated();
    Alone(TAKING_OUT);
    MakeAudited(0, {}, None);
    MakeAudited(1, {0}, None);
    EatFollowed(1, {0, 1});
    assert {} + {0} == {0} && {0} + {1} == {0, 1} && {0, 1} - {1} == {0};
    Audited(Let(0, MAKE), [Let(1, MAKE)] + three, {}, None);
    Audited(Let(1, MAKE), three, {0}, None);
    Audited(Do(Eat(1)), [TAKING_OUT], {0, 1}, None);
    TakingRejected();
    Audited(TAKING_OUT, [], {0}, None);
  }

  lemma TakingRejected()
    ensures AuditStmt(TAKING_OUT, {0}, None, None) == Reject
  {
    var out := Some({0});
    Alone(TAKE_AND_LEAVE_OUT);
    Alone(Break([]));
    assert AssignEvents(1, Use(0), false) == [Read(0)] + [Hand(0, 1)];
    FollowConcat({0}, [Read(0)], [Hand(0, 1)]);
    assert {0} - {0} + {1} == {1} && [Read(0)][1..] == [] && [Hand(0, 1)][1..] == [];
    assert AuditStmt(TAKE_OUT, {0}, out, out) == FallsWith({1});
    Audited(TAKE_OUT, [Break([])], {0}, out);
    Audited(Break([]), [], {1}, out);
    assert DropEvents([]) == [];
    assert 1 in {1} && 1 !in {0};
    assert AuditStmt(Break([]), {1}, out, out) == Reject;
    Audited(TAKE_AND_LEAVE_OUT, [], {0}, out);
  }
}
