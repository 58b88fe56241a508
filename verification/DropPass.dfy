/** Drop elaboration: decide where each owning local is freed.  The functions say
    what the pass computes; the class below is the pass itself, with its scope
    stack and its running `moved` set. */
module DropPass {
  import opened Options
  import opened Hir
  import opened Sorting

  datatype BlockOut = BlockOut(block: Block, escaped: set<Local>, diverges: bool)
  datatype StmtOut = StmtOut(stmt: Stmt, scope: seq<Local>, moved: set<Local>, diverges: bool)
  datatype StmtsOut = StmtsOut(stmts: seq<Stmt>, scope: seq<Local>, moved: set<Local>, diverges: bool)

  /** The unmoved locals of one scope, last declared first. */
  function Survivors(scope: seq<Local>, skip: set<Local>): seq<Local> {
    if |scope| == 0 then []
    else Survivors(scope[1..], skip) + (if scope[0] in skip then [] else [scope[0]])
  }

  /** Drops of an exit from the whole function, outermost scope first. */
  function ExitDrops(chain: seq<seq<Local>>, skip: set<Local>): seq<Local> {
    if |chain| == 0 then [] else Survivors(chain[0], skip) + ExitDrops(chain[1..], skip)
  }

  /** Drops of a jump out of some scopes, innermost scope first. */
  function JumpDrops(chain: seq<seq<Local>>, skip: set<Local>): seq<Local> {
    if |chain| == 0 then [] else JumpDrops(chain[1..], skip) + Survivors(chain[0], skip)
  }

  function LoopExitDrops(chain: seq<seq<Local>>, loopStart: Option<nat>, skip: set<Local>): seq<Local> {
    match loopStart
    case Some(k) => if k <= |chain| then JumpDrops(chain[k..], skip) else []
    case None => ExitDrops(chain, skip)
  }

  /** What binding or storing `e` moves: by-value call arguments, and `e` itself
      when it is a bare owning local. */
  function MovedByBinding(e: Expr): set<Local> {
    MovedIn(e) + (if e.Use? then {e.x} else {})
  }

  function WithFrees(b: Block, more: seq<Local>): Block {
    Block(b.stmts, b.heapToFree + more)
  }

  /** The join after an `if`: a value consumed on only some of the arms that fall
      through is freed on the others (an absent else is created for that). */
  function JoinArms(c: Expr, t: BlockOut, els: Option<BlockOut>, scope: seq<Local>, moved: set<Local>): StmtOut {
    var elseEscaped := if els.Some? then els.value.escaped else {};
    var elseDiverges := els.Some? && els.value.diverges;
    var elseBlock := if els.Some? then Some(els.value.block) else None;
    if t.diverges then
      StmtOut(If(c, t.block, elseBlock), scope,
              if elseDiverges then moved else moved + elseEscaped, elseDiverges)
    else if elseDiverges then
      StmtOut(If(c, t.block, elseBlock), scope, moved + t.escaped, false)
    else
      var union := t.escaped + elseEscaped;
      var forElse := Sorted(union - elseEscaped);
      StmtOut(If(c, WithFrees(t.block, Sorted(union - t.escaped)),
                 if |forElse| == 0 then elseBlock
                 else Some(WithFrees(if elseBlock.Some? then elseBlock.value else Block([], []), forElse))),
              scope, moved + union, false)
  }

  function VisitStmt(s: Stmt, outer: seq<seq<Local>>, scope: seq<Local>, loopStart: Option<nat>,
                     moved: set<Local>): StmtOut
    decreases s
  {
    var chain := outer + [scope];
    match s
    case Let(x, e) =>
      StmtOut(s, if Owns(e) then scope + [x] else scope, moved + MovedByBinding(e), false)
    case Assign(x, e, dropOld) =>
      var now := moved + MovedByBinding(e);
      StmtOut(Assign(x, e, dropOld && x !in now), scope, now - {x}, false)
    case Do(e) => StmtOut(s, scope, moved + MovedIn(e), false)
    case Return(v, _) =>
      var now := moved + (if v.Some? then MovedIn(v.value) else {});
      var returning := if v.Some? && v.value.Use? then {v.value.x} else {};
      StmtOut(Return(v, ExitDrops(chain, now + returning)), scope, now, true)
    case If(c, thn, els) =>
      JoinArms(c, VisitBlock(thn, chain, loopStart, moved),
               if els.Some? then Some(VisitBlock(els.value, chain, loopStart, moved)) else None,
               scope, moved)
    case While(c, body) =>
      StmtOut(While(c, VisitBlock(body, chain, Some(|chain|), moved).block), scope, moved, false)
    case Nested(b) =>
      var r := VisitBlock(b, chain, loopStart, moved);
      StmtOut(Nested(r.block), scope, moved + r.escaped, r.diverges)
    case Break(_) => StmtOut(Break(LoopExitDrops(chain, loopStart, moved)), scope, moved, true)
    case Continue(_) => StmtOut(Continue(LoopExitDrops(chain, loopStart, moved)), scope, moved, true)
  }

  function VisitStmts(ss: seq<Stmt>, outer: seq<seq<Local>>, scope: seq<Local>, loopStart: Option<nat>,
                      moved: set<Local>): StmtsOut
    decreases ss
  {
    if |ss| == 0 then StmtsOut([], scope, moved, false)
    else
      var h := VisitStmt(ss[0], outer, scope, loopStart, moved);
      var t := VisitStmts(ss[1..], outer, h.scope, loopStart, h.moved);
      StmtsOut([h.stmt] + t.stmts, t.scope, t.moved, h.diverges || t.diverges)
  }

  function VisitBlock(b: Block, chain: seq<seq<Local>>, loopStart: Option<nat>, inherited: set<Local>): BlockOut
    decreases b
  {
    var r := VisitStmts(b.stmts, chain, [], loopStart, inherited);
    BlockOut(Block(r.stmts, Survivors(r.scope, r.moved)),
             r.moved - inherited - (set x | x in r.scope), r.diverges)
  }

  lemma VisitFrom(ss: seq<Stmt>, i: nat, outer: seq<seq<Local>>, scope: seq<Local>, loopStart: Option<nat>,
                  moved: set<Local>)
    requires i < |ss|
    ensures var h := VisitStmt(ss[i], outer, scope, loopStart, moved);
            var t := VisitStmts(ss[i + 1..], outer, h.scope, loopStart, h.moved);
            VisitStmts(ss[i..], outer, scope, loopStart, moved) ==
            StmtsOut([h.stmt] + t.stmts, t.scope, t.moved, h.diverges || t.diverges)
  {
    assert ss[i..][0] == ss[i] && ss[i..][1..] == ss[i + 1..];
  }

  lemma Appended(done: seq<Stmt>, s: Stmt, rest: seq<Stmt>)
    ensures done + ([s] + rest) == done + [s] + rest
  {
  }

  /** The annotated body of a function. */
  function Elaborate(body: Block): Block {
    VisitBlock(body, [], None, {}).block
  }

  /** The pass as the compiler runs it. */
  class Pass {
    var scopeChain: seq<seq<Local>>

    constructor ()
      ensures scopeChain == []
    {
      scopeChain := [];
    }

    method ReverseUnmoved(scope: seq<Local>, skip: set<Local>) returns (drops: seq<Local>)
      ensures drops == Survivors(scope, skip)
    {
      drops := [];
      var i := |scope|;
      assert scope[i..] == [];
      while i > 0
        invariant 0 <= i <= |scope|
        invariant drops == Survivors(scope[i..], skip)
      {
        i := i - 1;
        assert scope[i..][1..] == scope[i + 1..];
        if scope[i] !in skip {
          drops := drops + [scope[i]];
        }
      }
      assert scope[0..] == scope;
    }

    method DropsAtExit(skip: set<Local>) returns (drops: seq<Local>)
      ensures drops == ExitDrops(scopeChain, skip)
    {
      drops := [];
      for i := 0 to |scopeChain|
        invariant drops + ExitDrops(scopeChain[i..], skip) == ExitDrops(scopeChain, skip)
      {
        var some := ReverseUnmoved(scopeChain[i], skip);
        assert scopeChain[i..][1..] == scopeChain[i + 1..];
        drops := drops + some;
      }
    }

    method DropsAtJump(start: nat, skip: set<Local>) returns (drops: seq<Local>)
      requires start <= |scopeChain|
      ensures drops == JumpDrops(scopeChain[start..], skip)
    {
      drops := [];
      var i := |scopeChain|;
      while i > start
        invariant start <= i <= |scopeChain|
        invariant drops == JumpDrops(scopeChain[i..], skip)
      {
        i := i - 1;
        var some := ReverseUnmoved(scopeChain[i], skip);
        assert scopeChain[i..][1..] == scopeChain[i + 1..];
        drops := drops + some;
      }
    }

    method DropsAtLoopExit(loopStart: Option<nat>, skip: set<Local>) returns (drops: seq<Local>)
      requires loopStart.Some? ==> loopStart.value <= |scopeChain|
      ensures drops == LoopExitDrops(scopeChain, loopStart, skip)
    {
      if loopStart.Some? {
        drops := DropsAtJump(loopStart.value, skip);
      } else {
        drops := DropsAtExit(skip);
      }
    }

    method VisitBody(body: Block) returns (r: Block)
      requires scopeChain == []
      modifies this
      ensures scopeChain == [] && r == Elaborate(body)
    {
      var escaped, diverges;
      r, escaped, diverges := Visit(body, None, {});
    }

    method Visit(b: Block, loopStart: Option<nat>, inherited: set<Local>)
        returns (r: Block, escaped: set<Local>, diverges: bool)
      requires loopStart.Some? ==> loopStart.value <= |scopeChain|
      modifies this
      ensures scopeChain == old(scopeChain)
      ensures BlockOut(r, escaped, diverges) == VisitBlock(b, scopeChain, loopStart, inherited)
      decreases b
    {
      ghost var outer := scopeChain;
      scopeChain := scopeChain + [[]];
      var moved := inherited;
      var done: seq<Stmt> := [];
      diverges := false;
      for i := 0 to |b.stmts|
        invariant |scopeChain| == |outer| + 1 && scopeChain[..|outer|] == outer
        invariant var rest := VisitStmts(b.stmts[i..], outer, scopeChain[|outer|], loopStart, moved);
                  VisitStmts(b.stmts, outer, [], loopStart, inherited) ==
                  StmtsOut(done + rest.stmts, rest.scope, rest.moved, diverges || rest.diverges)
      {
        ghost var scope := scopeChain[|outer|];
        VisitFrom(b.stmts, i, outer, scope, loopStart, moved);
        var s, exits;
        s, moved, exits := VisitOne(b.stmts[i], loopStart, moved);
        Appended(done, s, VisitStmts(b.stmts[i + 1..], outer, scopeChain[|outer|], loopStart, moved).stmts);
        done := done + [s];
        diverges := diverges || exits;
      }
      var scope := scopeChain[|scopeChain| - 1];
      scopeChain := scopeChain[..|scopeChain| - 1];
      var toFree := ReverseUnmoved(scope, moved);
      r := Block(done, toFree);
      escaped := moved - inherited - (set x | x in scope);
    }

    method Push(x: Local)
      requires |scopeChain| > 0
      modifies this
      ensures scopeChain == old(scopeChain)[|old(scopeChain)| - 1 := old(scopeChain)[|old(scopeChain)| - 1] + [x]]
    {
      var top := |scopeChain| - 1;
      scopeChain := scopeChain[top := scopeChain[top] + [x]];
    }

    method VisitOne(s: Stmt, loopStart: Option<nat>, before: set<Local>)
        returns (r: Stmt, moved: set<Local>, diverges: bool)
      requires |scopeChain| > 0
      requires loopStart.Some? ==> loopStart.value <= |scopeChain| - 1
      modifies this
      ensures |scopeChain| == |old(scopeChain)|
      ensures scopeChain[..|scopeChain| - 1] == old(scopeChain)[..|scopeChain| - 1]
      ensures StmtOut(r, scopeChain[|scopeChain| - 1], moved, diverges) ==
              VisitStmt(s, old(scopeChain)[..|scopeChain| - 1], old(scopeChain)[|scopeChain| - 1], loopStart, before)
      decreases s
    {
      ghost var outer, scope := scopeChain[..|scopeChain| - 1], scopeChain[|scopeChain| - 1];
      assert scopeChain == outer + [scope];
      moved, diverges, r := before, false, s;
      match s
      case Let(x, e) =>
        moved := moved + MovedByBinding(e);
        if Owns(e) { Push(x); }
      case Assign(x, e, dropOld) =>
        moved := moved + MovedByBinding(e);
        if x in moved { r := Assign(x, e, false); }
        moved := moved - {x};
      case Do(e) =>
        moved := moved + MovedIn(e);
      case Return(v, _) =>
        var returning := if v.Some? && v.value.Use? then {v.value.x} else {};
        if v.Some? { moved := moved + MovedIn(v.value); }
        var drops := DropsAtExit(moved + returning);
        r, diverges := Return(v, drops), true;
      case If(c, thn, els) =>
        r, moved, diverges := VisitIf(s, loopStart, before, scope);
      case While(c, body) =>
        var b, escaped, exits := Visit(body, Some(|scopeChain|), moved);
        r := While(c, b);
      case Nested(inner) =>
        var b, escaped, exits := Visit(inner, loopStart, moved);
        r, moved, diverges := Nested(b), moved + escaped, exits;
      case Break(_) =>
        var drops := DropsAtLoopExit(loopStart, moved);
        r, diverges := Break(drops), true;
      case Continue(_) =>
        var drops := DropsAtLoopExit(loopStart, moved);
        r, diverges := Continue(drops), true;
    }

    method VisitIf(s: Stmt, loopStart: Option<nat>, before: set<Local>, ghost scope: seq<Local>)
        returns (r: Stmt, moved: set<Local>, diverges: bool)
      requires s.If?
      requires loopStart.Some? ==> loopStart.value <= |scopeChain|
      modifies this
      ensures scopeChain == old(scopeChain)
      ensures StmtOut(r, scope, moved, diverges) ==
              JoinArms(s.cond, VisitBlock(s.thn, scopeChain, loopStart, before),
                       if s.els.Some? then Some(VisitBlock(s.els.value, scopeChain, loopStart, before)) else None,
                       scope, before)
      decreases s, 0
    {
      moved, diverges := before, false;
      var thenBlock, thenEscaped, thenDiverges := Visit(s.thn, loopStart, before);
      var elseBlock: Option<Block>, elseEscaped: set<Local>, elseDiverges := None, {}, false;
      if s.els.Some? {
        var b;
        b, elseEscaped, elseDiverges := Visit(s.els.value, loopStart, before);
        elseBlock := Some(b);
      }
      if thenDiverges {
        if !elseDiverges { moved := moved + elseEscaped; }
      } else if elseDiverges {
        moved := moved + thenEscaped;
      } else {
        var union := thenEscaped + elseEscaped;
        var forThen, forElse := Sorted(union - thenEscaped), Sorted(union - elseEscaped);
        thenBlock := WithFrees(thenBlock, forThen);
        if |forElse| > 0 {
          var b := if elseBlock.Some? then elseBlock.value else Block([], []);
          elseBlock := Some(WithFrees(b, forElse));
        }
        moved := moved + union;
      }
      r := If(s.cond, thenBlock, elseBlock);
      diverges := thenDiverges && elseDiverges;
    }
  }
}
