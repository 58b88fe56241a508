/** When exactly do the placed drops release everything exactly once?  The audit of
    the elaborated body decides it, for every body, accepted or not. */
module ExactCondition {
  import opened Options
  import opened Hir
  import opened Ownership
  import opened Paths
  import opened Audit
  import opened Memory
  import opened DropPass

  // --------------------------------------------------------- bodies without renaming

  /** No statement renames an owner (`let y = x`, `y = x`): a value reaches a local
      only from a call.  A renamed value lives in two slots at once, and a drop of
      the wrong slot can then free the right cell by accident; `Renaming` has such a body. */
  predicate PlainStmt(s: Stmt)
    decreases s
  {
    match s
    case Let(_, e) => !e.Use?
    case Assign(_, e, _) => !e.Use?
    case If(_, thn, els) => PlainBlock(thn) && (els.Some? ==> PlainBlock(els.value))
    case While(_, body) => PlainBlock(body)
    case Nested(b) => PlainBlock(b)
    case _ => true
  }

  predicate PlainStmts(ss: seq<Stmt>)
    decreases ss
  {
    |ss| == 0 || (PlainStmt(ss[0]) && PlainStmts(ss[1..]))
  }

  predicate PlainBlock(b: Block)
    decreases b
  {
    PlainStmts(b.stmts)
  }

  ghost predicate NoHand(es: seq<Event>) {
    forall e | e in es :: !e.Hand?
  }

  lemma {:induction false} ExprNoHand(e: Expr)
    ensures NoHand(EvalEvents(e)) && (e.Call? ==> NoHand(CallEvents(e.args)))
    decreases e, 1
  {
    if e.Call? { ArgsNoHand(e.args); }
  }

  lemma {:induction false} ArgsNoHand(args: seq<Expr>)
    ensures NoHand(ArgEvents(args)) && NoHand(Handover(args))
    decreases args, 0
  {
    if |args| > 0 {
      ExprNoHand(args[0]);
      ArgsNoHand(args[1..]);
    }
  }

  lemma {:induction false} StmtNoHand(s: Stmt, ch: seq<bool>)
    requires PlainStmt(s)
    ensures NoHand(RunStmt(s, ch).events)
    decreases |ch|, s
  {
    match s
    case Let(_, e) => ExprNoHand(e);
    case Assign(_, e, _) => ExprNoHand(e);
    case Do(e) => ExprNoHand(e);
    case Return(v, _) => if v.Some? { ExprNoHand(v.value); }
    case If(c, thn, els) =>
      ExprNoHand(c);
      if |ch| > 0 {
        BlockNoHand(thn, ch[1..]);
        if els.Some? { BlockNoHand(els.value, ch[1..]); }
      }
    case While(c, body) => LoopNoHand(c, body, ch);
    case Nested(b) => BlockNoHand(b, ch);
    case Break(_) =>
    case Continue(_) =>
  }

  lemma {:induction false} LoopNoHand(c: Expr, body: Block, ch: seq<bool>)
    requires PlainBlock(body)
    ensures NoHand(RunLoop(c, body, ch).events)
    decreases |ch|, body, 1
  {
    ExprNoHand(c);
    if |ch| > 0 && ch[0] {
      BlockNoHand(body, ch[1..]);
      LoopNoHand(c, body, RunBlock(body, ch[1..]).rest);
    }
  }

  lemma {:induction false} StmtsNoHand(ss: seq<Stmt>, ch: seq<bool>)
    requires PlainStmts(ss)
    ensures NoHand(RunStmts(ss, ch).events)
    decreases |ch|, ss
  {
    if |ss| > 0 {
      StmtNoHand(ss[0], ch);
      StmtsNoHand(ss[1..], RunStmt(ss[0], ch).rest);
    }
  }

  lemma {:induction false} BlockNoHand(b: Block, ch: seq<bool>)
    requires PlainBlock(b)
    ensures NoHand(RunBlock(b, ch).events)
    decreases |ch|, b
  {
    StmtsNoHand(b.stmts, ch);
  }

  // ------------------------------------------------- safe on the heap is disciplined

  ghost predicate SlotsDistinct(m: Mem) {
    && (forall x, y | x in m.slot && y in m.slot && m.slot[x] == m.slot[y] :: x == y)
    && (forall x | x in m.slot :: m.slot[x] < m.next)
  }

  ghost predicate EndsSafe(m: Mem, es: seq<Event>) {
    var n := Execute(m, es);
    !n.misuse && forall c: Cell | c < n.next :: n.released[c] == 1
  }

  lemma {:induction false} MisuseSticks(m: Mem, es: seq<Event>)
    requires m.misuse
    ensures Execute(m, es).misuse
    decreases |es|
  {
    if |es| > 0 { MisuseSticks(Perform(m, es[0]), es[1..]); }
  }

  /** A live cell no slot holds any more is never released. */
  lemma {:induction false} LostForever(m: Mem, es: seq<Event>, c: Cell)
    requires NoHand(es) && c < m.next && m.released[c] == 0
    requires forall x | x in m.slot :: m.slot[x] != c
    ensures !EndsSafe(m, es)
    decreases |es|
  {
    if |es| > 0 {
      assert es[0] in es;
      LostForever(Perform(m, es[0]), es[1..], c);
    }
  }

  /** Without renaming, a finished safe run followed the discipline. */
  lemma {:induction false} SafeIsDisciplined(m: Mem, own: set<Local>, es: seq<Event>)
    requires Linked(m, own) && SlotsDistinct(m) && NoHand(es) && EndsSafe(m, es)
    ensures Follow(own, es) == Some({})
    decreases |es|
  {
    if |es| == 0 {
      forall x | x in own ensures false {
        assert Held(m, own, m.slot[x]);
      }
      assert own == {};
    } else {
      assert es[0] in es;
      if Step(own, es[0]).None? {
        if es[0].Fresh? {
          var c := m.slot[es[0].x];
          assert Held(m, own, c);
          LostForever(Perform(m, es[0]), es[1..], c);
        } else {
          DeadTouch(m, own, es[0].x);
          MisuseSticks(Perform(m, es[0]), es[1..]);
        }
        assert false;
      } else {
        PerformKeepsLinked(m, own, es[0]);
        SafeIsDisciplined(Perform(m, es[0]), Step(own, es[0]).value, es[1..]);
      }
    }
  }

  lemma DeadTouch(m: Mem, own: set<Local>, x: Local)
    requires Linked(m, own) && SlotsDistinct(m) && x !in own
    ensures !LiveAt(m, x)
  {
    if x in m.slot {
      assert !Held(m, own, m.slot[x]);
    }
  }

  /** For an annotated body without renaming, passing the audit is the same thing as
      every run being safe on the heap. */
  lemma SafeExactlyWhenAuditPasses(body: Block)
    requires PlainBlock(body)
    ensures Passes(body) <==> AllRunsSafe(body)
  {
    AuditIsExact(body);
    if Passes(body) { DisciplinedRunsAreSafe(body); }
    if AllRunsSafe(body) {
      forall ch ensures Ends(RunBlock(body, ch), {}, Some({}), None, None) {
        assert RunIsSafe(RunBlock(body, ch));
        if RunBlock(body, ch).flow != Pending {
          BlockNoHand(body, ch);
          assert Linked(EMPTY, {}) && SlotsDistinct(EMPTY);
          SafeIsDisciplined(EMPTY, {}, RunBlock(body, ch).events);
        }
      }
    }
  }

  // ------------------------------------------------- the pass keeps a body plain

  lemma {:induction false} PlainStmtKept(s: Stmt, outer: seq<seq<Local>>, scope: seq<Local>,
                                         loopStart: Option<nat>, moved: set<Local>)
    requires PlainStmt(s)
    ensures PlainStmt(VisitStmt(s, outer, scope, loopStart, moved).stmt)
    decreases s
  {
    var chain := outer + [scope];
    match s
    case If(_, thn, els) =>
      PlainBlockKept(thn, chain, loopStart, moved);
      if els.Some? { PlainBlockKept(els.value, chain, loopStart, moved); }
    case While(_, body) => PlainBlockKept(body, chain, Some(|chain|), moved);
    case Nested(b) => PlainBlockKept(b, chain, loopStart, moved);
    case _ =>
  }

  lemma {:induction false} PlainStmtsKept(ss: seq<Stmt>, outer: seq<seq<Local>>, scope: seq<Local>,
                                          loopStart: Option<nat>, moved: set<Local>)
    requires PlainStmts(ss)
    ensures PlainStmts(VisitStmts(ss, outer, scope, loopStart, moved).stmts)
    decreases ss
  {
    if |ss| > 0 {
      PlainStmtKept(ss[0], outer, scope, loopStart, moved);
      var h := VisitStmt(ss[0], outer, scope, loopStart, moved);
      PlainStmtsKept(ss[1..], outer, h.scope, loopStart, h.moved);
      var t := VisitStmts(ss[1..], outer, h.scope, loopStart, h.moved);
      assert ([h.stmt] + t.stmts)[1..] == t.stmts;
    }
  }

  lemma {:induction false} PlainBlockKept(b: Block, chain: seq<seq<Local>>, loopStart: Option<nat>,
                                          inherited: set<Local>)
    requires PlainBlock(b)
    ensures PlainBlock(VisitBlock(b, chain, loopStart, inherited).block)
    decreases b
  {
    PlainStmtsKept(b.stmts, chain, [], loopStart, inherited);
  }

  /** The exact condition for drop elaboration, with no assumption on the body's
      control flow, scoping or acceptance. */
  lemma ElaborationSafeExactly(body: Block)
    requires PlainBlock(body)
    ensures AllRunsSafe(Elaborate(body)) <==> Passes(Elaborate(body))
  {
    PlainBlockKept(body, [], None, {});
    SafeExactlyWhenAuditPasses(Elaborate(body));
  }
}
