/** The order in which values are dropped: within a scope the last declared goes first, a
    return goes from the outermost scope inwards, a jump from the innermost outwards, and
    what an arm of an `if` frees for the other arm's sake comes at its very end. */
module DropOrder {
  import opened Options
  import opened Hir
  import opened Sorting
  import opened DropPass
  import opened Scopes
  import opened WellFormed
  import opened Containment

  /** `a` was declared after `b`. */
  ghost predicate DeclaredAfter(scope: seq<Local>, a: Local, b: Local) {
    exists p, q :: 0 <= p < q < |scope| && scope[p] == b && scope[q] == a
  }

  ghost predicate SameScope(chain: seq<seq<Local>>, a: Local, b: Local) {
    exists p :: 0 <= p < |chain| && DeclaredAfter(chain[p], a, b)
  }

  /** `a` belongs to a scope around that of `b`. */
  ghost predicate Around(chain: seq<seq<Local>>, a: Local, b: Local) {
    exists p, q :: 0 <= p < q < |chain| && a in chain[p] && b in chain[q]
  }

  ghost predicate NewestFirst(scope: seq<Local>, drops: seq<Local>) {
    forall i, j | 0 <= i < j < |drops| :: DeclaredAfter(scope, drops[i], drops[j])
  }

  ghost predicate OutsideIn(chain: seq<seq<Local>>, drops: seq<Local>) {
    forall i, j | 0 <= i < j < |drops| :: Around(chain, drops[i], drops[j]) || SameScope(chain, drops[i], drops[j])
  }

  ghost predicate InsideOut(chain: seq<seq<Local>>, drops: seq<Local>) {
    forall i, j | 0 <= i < j < |drops| :: Around(chain, drops[j], drops[i]) || SameScope(chain, drops[i], drops[j])
  }

  // -------------------------------------------------------------- the three lists

  lemma {:induction false} SurvivorsFrom(scope: seq<Local>, skip: set<Local>)
    ensures forall x | x in Survivors(scope, skip) :: x in scope && x !in skip
    decreases |scope|
  {
    if |scope| > 0 { SurvivorsFrom(scope[1..], skip); }
  }

  lemma {:induction false} SurvivorsOrder(scope: seq<Local>, skip: set<Local>)
    ensures NewestFirst(scope, Survivors(scope, skip))
    decreases |scope|
  {
    if |scope| > 0 {
      var rest := Survivors(scope[1..], skip);
      SurvivorsOrder(scope[1..], skip);
      SurvivorsFrom(scope[1..], skip);
      var all := Survivors(scope, skip);
      forall i, j | 0 <= i < j < |all| ensures DeclaredAfter(scope, all[i], all[j]) {
        if j < |rest| {
          assert DeclaredAfter(scope[1..], rest[i], rest[j]);
          var p, q :| 0 <= p < q < |scope[1..]| && scope[1..][p] == rest[j] && scope[1..][q] == rest[i];
          assert scope[p + 1] == all[j] && scope[q + 1] == all[i];
        } else {
          assert rest[i] in scope[1..];
          var q :| 0 <= q < |scope[1..]| && scope[1..][q] == rest[i];
          assert scope[0] == all[j] && scope[q + 1] == all[i];
        }
      }
    }
  }

  /** A scope in front of a chain does not disturb the order behind it. */
  lemma Deeper(first: seq<Local>, chain: seq<seq<Local>>, a: Local, b: Local)
    ensures Around(chain, a, b) ==> Around([first] + chain, a, b)
    ensures SameScope(chain, a, b) ==> SameScope([first] + chain, a, b)
    ensures DeclaredAfter(first, a, b) ==> SameScope([first] + chain, a, b)
    ensures a in first && (exists q :: 0 <= q < |chain| && b in chain[q]) ==> Around([first] + chain, a, b)
  {
    var all := [first] + chain;
    if Around(chain, a, b) {
      var p, q :| 0 <= p < q < |chain| && a in chain[p] && b in chain[q];
      assert all[p + 1] == chain[p] && all[q + 1] == chain[q];
    }
    if SameScope(chain, a, b) {
      var p :| 0 <= p < |chain| && DeclaredAfter(chain[p], a, b);
      assert all[p + 1] == chain[p];
    }
    assert all[0] == first;
    if q :| 0 <= q < |chain| && b in chain[q] { assert all[q + 1] == chain[q]; }
  }

  lemma {:induction false} ExitOrder(chain: seq<seq<Local>>, skip: set<Local>)
    ensures OutsideIn(chain, ExitDrops(chain, skip))
    ensures forall x | x in ExitDrops(chain, skip) :: exists p :: 0 <= p < |chain| && x in chain[p]
    decreases |chain|
  {
    hide DeclaredAfter, SameScope, Around, Survivors;
    if |chain| > 0 {
      var first, rest := Survivors(chain[0], skip), ExitDrops(chain[1..], skip);
      SurvivorsFrom(chain[0], skip);
      SurvivorsOrder(chain[0], skip);
      ExitOrder(chain[1..], skip);
      assert chain == [chain[0]] + chain[1..];
      var all := first + rest;
      forall i, j | 0 <= i < j < |all| ensures Around(chain, all[i], all[j]) || SameScope(chain, all[i], all[j]) {
        Deeper(chain[0], chain[1..], all[i], all[j]);
        if j < |first| {
          assert DeclaredAfter(chain[0], first[i], first[j]);
        } else {
          assert rest[j - |first|] in rest;
          if i >= |first| { assert all[i] == rest[i - |first|]; }
        }
      }
      forall x | x in all ensures exists p :: 0 <= p < |chain| && x in chain[p] {
        if x in rest {
          var p :| 0 <= p < |chain[1..]| && x in chain[1..][p];
          assert x in chain[p + 1];
        } else {
          assert x in chain[0];
        }
      }
    }
  }

  lemma {:induction false} JumpOrder(chain: seq<seq<Local>>, skip: set<Local>)
    ensures InsideOut(chain, JumpDrops(chain, skip))
    ensures forall x | x in JumpDrops(chain, skip) :: exists p :: 0 <= p < |chain| && x in chain[p]
    decreases |chain|
  {
    hide DeclaredAfter, SameScope, Around, Survivors;
    if |chain| > 0 {
      var last, rest := Survivors(chain[0], skip), JumpDrops(chain[1..], skip);
      SurvivorsFrom(chain[0], skip);
      SurvivorsOrder(chain[0], skip);
      JumpOrder(chain[1..], skip);
      assert chain == [chain[0]] + chain[1..];
      var all := rest + last;
      forall i, j | 0 <= i < j < |all| ensures Around(chain, all[j], all[i]) || SameScope(chain, all[i], all[j]) {
        Deeper(chain[0], chain[1..], all[i], all[j]);
        Deeper(chain[0], chain[1..], all[j], all[i]);
        if i >= |rest| {
          assert all[i] == last[i - |rest|] && all[j] == last[j - |rest|];
          assert DeclaredAfter(chain[0], last[i - |rest|], last[j - |rest|]);
        } else {
          assert rest[i] in rest;
          if j >= |rest| { assert all[j] == last[j - |rest|]; }
        }
      }
      forall x | x in all ensures exists p :: 0 <= p < |chain| && x in chain[p] {
        if x in rest {
          var p :| 0 <= p < |chain[1..]| && x in chain[1..][p];
          assert x in chain[p + 1];
        } else {
          assert x in chain[0];
        }
      }
    }
  }

  /** A jump outside any loop leaves the function: it drops what a return would. */
  lemma LoopExitDropsAre(chain: seq<seq<Local>>, loopStart: Option<nat>, skip: set<Local>)
    requires NoDup(Flat(chain)) && (loopStart.Some? ==> loopStart.value <= |chain|)
    ensures var left := if loopStart.Some? then chain[loopStart.value..] else chain;
            NoDup(LoopExitDrops(chain, loopStart, skip)) && Elems(LoopExitDrops(chain, loopStart, skip)) == Vis(left) - skip
  {
    if loopStart.Some? {
      var k := loopStart.value;
      assert chain == chain[..k] + chain[k..];
      FlatConcat(chain[..k], chain[k..]);
      NoDupSplit(Flat(chain[..k]), Flat(chain[k..]));
      JumpDropsAre(chain[k..], skip);
    } else {
      ExitDropsAre(chain, skip);
    }
  }

  // ------------------------------------------------------------ an annotated body

  /** The owning locals a list of statements declares itself, in order. */
  function Declares(ss: seq<Stmt>): seq<Local> {
    if |ss| == 0 then []
    else (if ss[0].Let? && Owns(ss[0].init) then [ss[0].x] else []) + Declares(ss[1..])
  }

  /** Read off the annotated code: the scopes around a statement are those its
      declarations make. */
  ghost predicate StmtOrdered(s: Stmt, chain: seq<seq<Local>>, loopStart: Option<nat>)
    decreases s
  {
    match s
    case Return(_, drops) => OutsideIn(chain, drops)
    case Break(drops) => JumpOrdered(chain, loopStart, drops)
    case Continue(drops) => JumpOrdered(chain, loopStart, drops)
    case If(_, thn, els) =>
      BlockOrdered(thn, chain, loopStart) && (els.Some? ==> BlockOrdered(els.value, chain, loopStart))
    case While(_, body) => BlockOrdered(body, chain, Some(|chain|))
    case Nested(b) => BlockOrdered(b, chain, loopStart)
    case _ => true
  }

  ghost predicate JumpOrdered(chain: seq<seq<Local>>, loopStart: Option<nat>, drops: seq<Local>) {
    if loopStart.None? then OutsideIn(chain, drops)
    else loopStart.value <= |chain| && InsideOut(chain[loopStart.value..], drops)
  }

  ghost predicate StmtsOrdered(ss: seq<Stmt>, outer: seq<seq<Local>>, scope: seq<Local>, loopStart: Option<nat>)
    decreases ss
  {
    |ss| == 0 ||
    (StmtOrdered(ss[0], outer + [scope], loopStart) &&
     StmtsOrdered(ss[1..], outer, scope + Declares([ss[0]]), loopStart))
  }

  /** A block's own locals go first, the newest of them first; then, in the order of their
      ids, those of other scopes that the other arm gave away. */
  ghost predicate BlockOrdered(b: Block, chain: seq<seq<Local>>, loopStart: Option<nat>)
    decreases b
  {
    StmtsOrdered(b.stmts, chain, [], loopStart) && EndOrdered(Declares(b.stmts), b.heapToFree)
  }

  ghost predicate EndOrdered(own: seq<Local>, frees: seq<Local>) {
    forall i, j | 0 <= i < j < |frees| ::
      if frees[j] in own then DeclaredAfter(own, frees[i], frees[j])
      else frees[i] in own || frees[i] < frees[j]
  }

  // ------------------------------------------------------ visible locals, scopes kept

  /** Distinct locals, and moves of visible ones only: kept by the pass on any scoped body. */
  lemma {:induction false} StmtKept(s: Stmt, outer: seq<seq<Local>>, scope: seq<Local>, loopStart: Option<nat>,
                                    moved: set<Local>, inLoop: bool)
    requires Good(outer, scope, moved) && StmtScoped(s, Vis(outer + [scope]), inLoop)
    ensures var r := VisitStmt(s, outer, scope, loopStart, moved);
            && Good(outer, r.scope, r.moved) && r.scope == scope + Declares([s])
            && Declares([r.stmt]) == Declares([s])
            && Vis(outer + [r.scope]) == After(s, Vis(outer + [scope]))
    decreases s
  {
    var vis, chain := Vis(outer + [scope]), outer + [scope];
    assert [s][1..] == [] && scope + [] == scope;
    var r := VisitStmt(s, outer, scope, loopStart, moved);
    assert [r.stmt][1..] == [];
    match s
    case Let(x, e) =>
      MovedInScope(e, vis);
      if Owns(e) { VisPush(outer, scope, x); }
    case Assign(_, e, _) => MovedInScope(e, vis);
    case Do(e) => MovedInScope(e, vis);
    case Return(v, _) => if v.Some? { MovedInScope(v.value, vis); }
    case If(_, thn, els) =>
      BlockKept(thn, chain, loopStart, moved, inLoop);
      if els.Some? { BlockKept(els.value, chain, loopStart, moved, inLoop); }
    case While(_, body) => BlockKept(body, chain, Some(|chain|), moved, true);
    case Nested(b) => BlockKept(b, chain, loopStart, moved, inLoop);
    case _ =>
  }

  lemma {:induction false} StmtsKept(ss: seq<Stmt>, outer: seq<seq<Local>>, scope: seq<Local>, loopStart: Option<nat>,
                                     moved: set<Local>, inLoop: bool)
    requires Good(outer, scope, moved) && StmtsScoped(ss, Vis(outer + [scope]), inLoop)
    ensures var r := VisitStmts(ss, outer, scope, loopStart, moved);
            && Good(outer, r.scope, r.moved) && r.scope == scope + Declares(ss) && Declares(r.stmts) == Declares(ss)
    decreases ss
  {
    if |ss| > 0 {
      StmtKept(ss[0], outer, scope, loopStart, moved, inLoop);
      var h := VisitStmt(ss[0], outer, scope, loopStart, moved);
      StmtsKept(ss[1..], outer, h.scope, loopStart, h.moved, inLoop);
      DeclaresCons(ss[0], ss[1..]);
      var t := VisitStmts(ss[1..], outer, h.scope, loopStart, h.moved);
      DeclaresCons(h.stmt, t.stmts);
      assert [ss[0]] + ss[1..] == ss;
      assert scope + Declares([ss[0]]) + Declares(ss[1..]) == scope + Declares(ss);
    } else {
      assert scope + [] == scope;
    }
  }

  lemma DeclaresCons(s: Stmt, rest: seq<Stmt>)
    ensures Declares([s] + rest) == Declares([s]) + Declares(rest)
  {
    assert ([s] + rest)[1..] == rest && [s][1..] == [];
  }

  lemma {:induction false} BlockKept(b: Block, chain: seq<seq<Local>>, loopStart: Option<nat>, inherited: set<Local>, inLoop: bool)
    requires NoDup(Flat(chain)) && inherited <= Vis(chain) && BlockScoped(b, Vis(chain), inLoop)
    ensures var r := VisitBlock(b, chain, loopStart, inherited);
            && r.escaped <= Vis(chain) && Declares(r.block.stmts) == Declares(b.stmts)
            && Elems(Declares(b.stmts)) !! Vis(chain)
    decreases b
  {
    GoodEntry(chain, inherited);
    StmtsKept(b.stmts, chain, [], loopStart, inherited, inLoop);
    var r := VisitStmts(b.stmts, chain, [], loopStart, inherited);
    BlockEnd(chain, r.scope, inherited, r.moved);
    assert [] + Declares(b.stmts) == Declares(b.stmts);
  }

  // ------------------------------------------------------------------- elaboration

  lemma {:induction false} StmtInOrder(s: Stmt, outer: seq<seq<Local>>, scope: seq<Local>, loopStart: Option<nat>,
                                       moved: set<Local>, inLoop: bool)
    requires Good(outer, scope, moved) && StmtScoped(s, Vis(outer + [scope]), inLoop)
    requires loopStart.Some? ==> loopStart.value <= |outer|
    ensures StmtOrdered(VisitStmt(s, outer, scope, loopStart, moved).stmt, outer + [scope], loopStart)
    decreases s
  {
    var chain := outer + [scope];
    match s
    case Return(v, _) =>
      ExitOrder(chain, moved + (if v.Some? then MovedIn(v.value) else {}) +
                       (if v.Some? && v.value.Use? then {v.value.x} else {}));
    case If(c, thn, els) => IfInOrder(s, outer, scope, loopStart, moved, inLoop);
    case While(_, body) => BlockInOrder(body, chain, Some(|chain|), moved, true);
    case Nested(b) => BlockInOrder(b, chain, loopStart, moved, inLoop);
    case Break(_) => JumpInOrder(chain, loopStart, moved);
    case Continue(_) => JumpInOrder(chain, loopStart, moved);
    case _ =>
  }

  lemma JumpInOrder(chain: seq<seq<Local>>, loopStart: Option<nat>, moved: set<Local>)
    requires loopStart.Some? ==> loopStart.value <= |chain|
    ensures JumpOrdered(chain, loopStart, LoopExitDrops(chain, loopStart, moved))
  {
    if loopStart.Some? { JumpOrder(chain[loopStart.value..], moved); } else { ExitOrder(chain, moved); }
  }

  /** Frees appended in increasing order, of locals of other scopes. */
  lemma Appended(b: Block, chain: seq<seq<Local>>, loopStart: Option<nat>, more: set<Local>)
    requires BlockOrdered(b, chain, loopStart) && Elems(Declares(b.stmts)) !! more
    requires forall x | x in b.heapToFree :: x in Declares(b.stmts)
    ensures BlockOrdered(WithFrees(b, Sorted(more)), chain, loopStart)
  {
    SortedIs(more);
    var own, frees, extra := Declares(b.stmts), b.heapToFree, Sorted(more);
    forall i, j | 0 <= i < j < |frees + extra|
      ensures if (frees + extra)[j] in own then DeclaredAfter(own, (frees + extra)[i], (frees + extra)[j])
              else (frees + extra)[i] in own || (frees + extra)[i] < (frees + extra)[j]
    {
      if j < |frees| {
        assert frees[j] in frees;
      } else {
        assert extra[j - |frees|] in Elems(extra);
        if i < |frees| { assert frees[i] in frees; }
      }
    }
  }

  lemma {:induction false} IfInOrder(s: Stmt, outer: seq<seq<Local>>, scope: seq<Local>, loopStart: Option<nat>,
                                     moved: set<Local>, inLoop: bool)
    requires s.If? && Good(outer, scope, moved) && StmtScoped(s, Vis(outer + [scope]), inLoop)
    requires loopStart.Some? ==> loopStart.value <= |outer|
    ensures StmtOrdered(VisitStmt(s, outer, scope, loopStart, moved).stmt, outer + [scope], loopStart)
    decreases s, 0
  {
    var chain := outer + [scope];
    var t := VisitBlock(s.thn, chain, loopStart, moved);
    BlockInOrder(s.thn, chain, loopStart, moved, inLoop);
    BlockKept(s.thn, chain, loopStart, moved, inLoop);
    if s.els.Some? {
      var e := VisitBlock(s.els.value, chain, loopStart, moved);
      BlockInOrder(s.els.value, chain, loopStart, moved, inLoop);
      BlockKept(s.els.value, chain, loopStart, moved, inLoop);
      var union := t.escaped + e.escaped;
      Appended(t.block, chain, loopStart, union - t.escaped);
      Appended(e.block, chain, loopStart, union - e.escaped);
    } else {
      var none := Block([], []);
      assert t.escaped + {} == t.escaped;
      Appended(t.block, chain, loopStart, t.escaped - t.escaped);
      Appended(none, chain, loopStart, t.escaped - {});
    }
  }

  lemma {:induction false} StmtsInOrder(ss: seq<Stmt>, outer: seq<seq<Local>>, scope: seq<Local>, loopStart: Option<nat>,
                                        moved: set<Local>, inLoop: bool)
    requires Good(outer, scope, moved) && StmtsScoped(ss, Vis(outer + [scope]), inLoop)
    requires loopStart.Some? ==> loopStart.value <= |outer|
    ensures StmtsOrdered(VisitStmts(ss, outer, scope, loopStart, moved).stmts, outer, scope, loopStart)
    decreases ss
  {
    if |ss| > 0 {
      StmtInOrder(ss[0], outer, scope, loopStart, moved, inLoop);
      StmtKept(ss[0], outer, scope, loopStart, moved, inLoop);
      var h := VisitStmt(ss[0], outer, scope, loopStart, moved);
      StmtsInOrder(ss[1..], outer, h.scope, loopStart, h.moved, inLoop);
      var t := VisitStmts(ss[1..], outer, h.scope, loopStart, h.moved);
      assert ([h.stmt] + t.stmts)[1..] == t.stmts;
    }
  }

  lemma {:induction false} BlockInOrder(b: Block, chain: seq<seq<Local>>, loopStart: Option<nat>, inherited: set<Local>, inLoop: bool)
    requires NoDup(Flat(chain)) && inherited <= Vis(chain) && BlockScoped(b, Vis(chain), inLoop)
    requires loopStart.Some? ==> loopStart.value <= |chain|
    ensures var r := VisitBlock(b, chain, loopStart, inherited).block;
            BlockOrdered(r, chain, loopStart) && forall x | x in r.heapToFree :: x in Declares(r.stmts)
    decreases b
  {
    GoodEntry(chain, inherited);
    StmtsInOrder(b.stmts, chain, [], loopStart, inherited, inLoop);
    StmtsKept(b.stmts, chain, [], loopStart, inherited, inLoop);
    var r := VisitStmts(b.stmts, chain, [], loopStart, inherited);
    assert [] + Declares(b.stmts) == Declares(b.stmts);
    SurvivorsOrder(r.scope, r.moved);
    SurvivorsFrom(r.scope, r.moved);
  }

  /** Every list of drops the pass writes into a body, anywhere in it, is in order. */
  lemma ElaborationInOrder(body: Block)
    requires BodyScoped(body)
    ensures BlockOrdered(Elaborate(body), [], None)
  {
    assert Vis([]) == {};
    BlockInOrder(body, [], None, {}, false);
  }
}
