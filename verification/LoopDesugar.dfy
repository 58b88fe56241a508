/** Loop conditions with owning temporaries: the loop is rewritten to bind them at the
    top of each iteration and to leave by a `break` when the condition fails. */
module LoopDesugar {
  import opened Options
  import opened Hir
  import opened Ownership
  import opened Paths
  import opened Audit

  /** `if (!residual) { break; }` - decided true when the residual condition fails. */
  function Guard(residual: Expr): Stmt {
    If(residual, Block([Break([])], []), None)
  }

  /** `while (cond) body`, once `pre` binds the temporaries of `cond` and `residual` is
      the condition over them. */
  function Desugar(pre: seq<Stmt>, residual: Expr, body: Block): Stmt {
    While(Lit, NewBody(pre, residual, body))
  }

  function NewBody(pre: seq<Stmt>, residual: Expr, body: Block): Block {
    Block(pre + ([Guard(residual)] + body.stmts), body.heapToFree)
  }

  predicate AllLets(pre: seq<Stmt>) {
    forall s | s in pre :: s.Let?
  }

  function LetEvents(pre: seq<Stmt>): seq<Event>
    requires AllLets(pre)
  {
    if |pre| == 0 then []
    else
      assert pre[0] in pre;
      SimpleEvents(pre[0]) + LetEvents(pre[1..])
  }

  // ------------------------------------------------------------------ what is preserved

  /** Events on the temporaries alone. */
  predicate Hidden(e: Event, temps: set<Local>) {
    match e
    case Read(x) => x in temps
    case GiveAway(x) => x in temps
    case Drop(x) => x in temps
    case Fresh(x) => x in temps
    case Hand(y, x) => y in temps && x in temps
    case Temp => true
  }

  /** What happens to everything but the temporaries. */
  function Visible(es: seq<Event>, temps: set<Local>): seq<Event> {
    if |es| == 0 then []
    else (if Hidden(es[0], temps) then [] else [es[0]]) + Visible(es[1..], temps)
  }

  lemma {:induction false} VisibleConcat(a: seq<Event>, b: seq<Event>, temps: set<Local>)
    ensures Visible(a + b, temps) == Visible(a, temps) + Visible(b, temps)
    decreases |a|
  {
    if |a| == 0 {
      assert a + b == b;
    } else {
      assert (a + b)[1..] == a[1..] + b;
      VisibleConcat(a[1..], b, temps);
    }
  }

  /** Binding the temporaries and evaluating what is left does what evaluating the
      condition did. */
  predicate EvaluatesAlike(cond: Expr, pre: seq<Stmt>, residual: Expr, temps: set<Local>)
    requires AllLets(pre)
  {
    Visible(LetEvents(pre) + EvalEvents(residual), temps) == Visible(EvalEvents(cond), temps)
  }

  predicate Alike(p: Path, q: Path, temps: set<Local>) {
    && p.flow == q.flow
    && Visible(p.events, temps) == Visible(q.events, temps)
    && (p.flow != Pending ==> p.rest == q.rest)
  }

  // --------------------------------------------------------------- running the new body

  lemma {:induction false} RunLets(pre: seq<Stmt>, more: seq<Stmt>, ch: seq<bool>)
    requires AllLets(pre)
    ensures RunStmts(pre + more, ch) == Prefixed(LetEvents(pre), RunStmts(more, ch))
    decreases |pre|
  {
    if |pre| == 0 {
      assert pre + more == more;
      assert [] + RunStmts(more, ch).events == RunStmts(more, ch).events;
    } else {
      assert pre[0] in pre && forall s | s in pre[1..] :: s in pre;
      assert (pre + more)[1..] == pre[1..] + more;
      RunLets(pre[1..], more, ch);
      var p := RunStmts(more, ch);
      assert SimpleEvents(pre[0]) + (LetEvents(pre[1..]) + p.events) == LetEvents(pre) + p.events;
    }
  }

  /** Evaluating the guard: out of choices, out of the loop, or on to the old body. */
  lemma RunNewBody(pre: seq<Stmt>, residual: Expr, body: Block, ch: seq<bool>)
    requires AllLets(pre)
    ensures var p := RunBlock(NewBody(pre, residual, body), ch);
            var top := LetEvents(pre) + EvalEvents(residual);
            p == if |ch| == 0 then Path(top, Pending, [])
                 else if ch[0] then Path(top, Broke, ch[1..])
                 else Prefixed(top, RunBlock(body, ch[1..]))
  {
    var guarded := [Guard(residual)] + body.stmts;
    RunLets(pre, guarded, ch);
    assert guarded[1..] == body.stmts;
    var leave := [Break([])];
    if |ch| > 0 && ch[0] {
      assert leave[1..] == [] && DropEvents([]) == [];
      assert RunStmts(leave, ch[1..]) == Path([], Broke, ch[1..]);
      assert RunBlock(Block(leave, []), ch[1..]) == Path([], Broke, ch[1..]);
      assert RunStmt(Guard(residual), ch) == Path(EvalEvents(residual) + [], Broke, ch[1..]);
      assert EvalEvents(residual) + [] == EvalEvents(residual);
    } else if |ch| > 0 {
      assert RunStmt(Guard(residual), ch) == Path(EvalEvents(residual), Falls, ch[1..]);
      var p := RunStmts(body.stmts, ch[1..]);
      Regroup(LetEvents(pre), EvalEvents(residual), p.events, DropEvents(body.heapToFree));
    } else {
      assert ch == [];
    }
  }

  lemma Regroup(a: seq<Event>, b: seq<Event>, c: seq<Event>, d: seq<Event>)
    ensures a + (b + c) == a + b + c && a + (b + c) + d == a + b + (c + d)
  {
  }

  // ----------------------------------------------------------------- the loops run alike

  /** One turn of the new loop, its literal condition decided true. */
  lemma TurnIs(nb: Block, ch: seq<bool>)
    ensures var once := RunBlock(nb, ch);
            RunLoop(Lit, nb, [true] + ch) ==
            if once.flow.Falls? || once.flow.Continued? then Prefixed(once.events, RunLoop(Lit, nb, once.rest))
            else Path(once.events, if once.flow.Broke? then Falls else once.flow, once.rest)
  {
    Tail(true, ch);
    var once := RunBlock(nb, ch);
    assert EvalEvents(Lit) + once.events == once.events;
  }

  /** What the new loop does with the decision of one condition and its own literal. */
  lemma NewTurn(pre: seq<Stmt>, residual: Expr, body: Block, fails: bool, ch: seq<bool>)
    requires AllLets(pre)
    ensures var nb, top := NewBody(pre, residual, body), LetEvents(pre) + EvalEvents(residual);
            var once := RunBlock(body, ch);
            RunLoop(Lit, nb, [true] + ([fails] + ch)) ==
            if fails then Path(top, Falls, ch)
            else if once.flow.Falls? || once.flow.Continued? then
              Prefixed(top + once.events, RunLoop(Lit, nb, once.rest))
            else Path(top + once.events, if once.flow.Broke? then Falls else once.flow, once.rest)
  {
    var nb := NewBody(pre, residual, body);
    RunNewBody(pre, residual, body, [fails] + ch);
    Tail(fails, ch);
    TurnIs(nb, [fails] + ch);
  }

  lemma AlikeFront(a: seq<Event>, b: seq<Event>, p: Path, q: Path, temps: set<Local>)
    requires Visible(a, temps) == Visible(b, temps) && Alike(p, q, temps)
    ensures Alike(Prefixed(a, p), Prefixed(b, q), temps)
  {
    VisibleConcat(a, p.events, temps);
    VisibleConcat(b, q.events, temps);
  }

  lemma SameTurn(cond: Expr, pre: seq<Stmt>, residual: Expr, temps: set<Local>, es: seq<Event>)
    requires AllLets(pre) && EvaluatesAlike(cond, pre, residual, temps)
    ensures Visible(LetEvents(pre) + EvalEvents(residual) + es, temps) == Visible(EvalEvents(cond) + es, temps)
  {
    VisibleConcat(LetEvents(pre) + EvalEvents(residual), es, temps);
    VisibleConcat(EvalEvents(cond), es, temps);
  }

  /** Every run of the loop is a run of the rewritten one, whatever its body does:
      fall off its end, break, continue or return. */
  lemma {:induction false} RewrittenRuns(cond: Expr, pre: seq<Stmt>, residual: Expr, body: Block, temps: set<Local>, ch: seq<bool>)
    returns (other: seq<bool>)
    requires AllLets(pre) && EvaluatesAlike(cond, pre, residual, temps)
    ensures Alike(RunLoop(cond, body, ch), RunStmt(Desugar(pre, residual, body), other), temps)
    decreases |ch|
  {
    var nb := NewBody(pre, residual, body);
    SameTurn(cond, pre, residual, temps, []);
    if |ch| == 0 {
      other := [true] + [];
      TurnIs(nb, []);
      RunNewBody(pre, residual, body, []);
    } else if !ch[0] {
      other := [true] + ([true] + ch[1..]);
      NewTurn(pre, residual, body, true, ch[1..]);
    } else {
      var once := RunBlock(body, ch[1..]);
      SameTurn(cond, pre, residual, temps, once.events);
      if once.flow.Falls? || once.flow.Continued? {
        var more := RewrittenRuns(cond, pre, residual, body, temps, once.rest);
        var used := FrameBlock(body, ch[1..], more);
        other := [true] + ([false] + (used + more));
        NewTurn(pre, residual, body, false, used + more);
        AlikeFront(EvalEvents(cond) + once.events, LetEvents(pre) + EvalEvents(residual) + once.events,
                   RunLoop(cond, body, once.rest), RunLoop(Lit, nb, more), temps);
      } else {
        other := [true] + ([false] + ch[1..]);
        NewTurn(pre, residual, body, false, ch[1..]);
      }
    }
  }

  /** The runs of the rewritten loop in which its literal condition holds, as it does. */
  predicate TrueHolds(pre: seq<Stmt>, residual: Expr, body: Block, ch: seq<bool>)
    decreases |ch|
  {
    |ch| == 0 || (ch[0] &&
      var once := RunBlock(NewBody(pre, residual, body), ch[1..]);
      (once.flow.Falls? || once.flow.Continued? ==> TrueHolds(pre, residual, body, once.rest)))
  }

  /** And the rewritten loop does nothing else: each of its finished runs is a run of the
      loop. */
  lemma {:induction false} RewrittenOnly(cond: Expr, pre: seq<Stmt>, residual: Expr, body: Block, temps: set<Local>, other: seq<bool>)
    returns (ch: seq<bool>)
    requires AllLets(pre) && EvaluatesAlike(cond, pre, residual, temps) && TrueHolds(pre, residual, body, other)
    requires RunStmt(Desugar(pre, residual, body), other).flow != Pending
    ensures Alike(RunLoop(cond, body, ch), RunStmt(Desugar(pre, residual, body), other), temps)
    decreases |other|
  {
    var nb := NewBody(pre, residual, body);
    RunNewBody(pre, residual, body, other[1..]);
    assert other == [true] + other[1..];
    TurnIs(nb, other[1..]);
    var fails, tail := other[1..][0], other[1..][1..];
    assert other[1..] == [fails] + tail;
    NewTurn(pre, residual, body, fails, tail);
    SameTurn(cond, pre, residual, temps, []);
    if fails {
      ch := [false] + tail;
      Tail(false, tail);
    } else {
      var once := RunBlock(body, tail);
      SameTurn(cond, pre, residual, temps, once.events);
      if once.flow.Falls? || once.flow.Continued? {
        var more := RewrittenOnly(cond, pre, residual, body, temps, once.rest);
        var used := FrameBlock(body, tail, more);
        ch := [true] + (used + more);
        Tail(true, used + more);
        OneTrip(cond, body, ch, once, more);
        AlikeFront(EvalEvents(cond) + once.events, LetEvents(pre) + EvalEvents(residual) + once.events,
                   RunLoop(cond, body, more), RunLoop(Lit, nb, once.rest), temps);
      } else {
        ch := [true] + tail;
        Tail(true, tail);
      }
    }
  }
}
