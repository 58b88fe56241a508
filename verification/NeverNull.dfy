/** Never-null summaries: the fixpoint over all functions, and why a function marked
    true never returns null. */
module NeverNull {
  import opened Options
  import opened NullFlow
  import opened NullWalker

  // ----------------------------------------------------------------------- soundness

  /** Every entry of the table is certain, or its body passes the walk given the table. */
  ghost predicate Justified(p: Program, sums: seq<bool>) {
    forall f | At(sums, f) && !At(p.certain, f) :: f in p.bodies && Accepts(p.bodies[f], sums)
  }

  /** What a finished piece of a body may do after the walk of that piece. */
  predicate Respects(o: Outcome, w: Walk) {
    match o
    case Stuck => true
    case Falls(env) => w.Ok? && !w.terminates && Below(w.state, env)
    case Returned(v) => v.Some? ==> v.value
  }

  lemma BelowPut(state: Nulls, env: Nulls, x: nat, known: bool, b: bool)
    requires Below(state, env) && (known ==> b)
    ensures Below(Put(state, x, known), Put(env, x, b))
  {
  }

  lemma BelowNarrowed(cond: Cond, state: Nulls, env: Nulls, taken: bool)
    requires Below(state, env) && GoesWay(cond, env, taken)
    ensures Below(Narrowed(cond, state, taken), env)
  {
  }

  lemma BelowMeet(a: Nulls, b: Nulls, env: Nulls)
    requires |a| == |b| && (Below(a, env) || Below(b, env))
    ensures Below(Meet(a, b), env)
  {
  }

  lemma {:induction false} EvalSound(p: Program, e: Expr, state: Nulls, env: Nulls, sums: seq<bool>, t: Tree)
    requires PlainProgram(p, sums) && Justified(p, sums) && PlainExpr(e) && Below(state, env)
    requires Flow(e, state, sums) && Eval(p, e, env, t).Some?
    ensures Eval(p, e, env, t) == Some(true)
    decreases t, 0, e
  {
    match e
    case Cast(_, inner) => EvalSound(p, inner, state, env, sums, t);
    case Invoke(f) =>
      if !Sure(p, f) {
        var fn := p.bodies[f];
        BlockSound(p, fn.body, fn.sure, t.entry, sums, false, t.run);
      }
    case _ =>
  }

  lemma {:induction false} StmtSound(p: Program, s: Stmt, state: Nulls, env: Nulls, sums: seq<bool>, any: bool, t: Tree)
    requires PlainProgram(p, sums) && Justified(p, sums) && PlainStmt(s, state, sums, any) && Below(state, env)
    requires StmtWalk(s, state, sums, any).Ok?
    ensures Respects(RunStmt(p, s, env, t), StmtWalk(s, state, sums, any))
    decreases t, 1, s
  {
    match s
    case Let(x, e) => StoreSound(p, e, x, state, env, sums, t);
    case Set(x, e) => StoreSound(p, e, x, state, env, sums, t);
    case Return(v) =>
      if v.Some? && Eval(p, v.value, env, t).Some? { EvalSound(p, v.value, state, env, sums, t); }
    case If(cond, thn, els) =>
      if t.Branch? && GoesWay(cond, env, t.taken) { IfSound(p, cond, thn, els, state, env, sums, any, t); }
    case Nested(body) =>
      if t.Branch? { BlockSound(p, body, state, env, sums, any, t.run); }
    case While(cond, body) =>
      if t.Loop? { LoopSound(p, cond, body, state, env, sums, any, t.rounds); }
    case Effect =>
  }

  lemma {:induction false} StoreSound(p: Program, e: Expr, x: nat, state: Nulls, env: Nulls, sums: seq<bool>, t: Tree)
    requires PlainProgram(p, sums) && Justified(p, sums) && PlainExpr(e) && Below(state, env)
    ensures var o := Stored(Eval(p, e, env, t), x, env);
            o.Falls? ==> Below(Put(state, x, Flow(e, state, sums)), o.env)
    decreases t, 1, e
  {
    var v := Eval(p, e, env, t);
    if v.Some? {
      if Flow(e, state, sums) { EvalSound(p, e, state, env, sums, t); }
      BelowPut(state, env, x, Flow(e, state, sums), v.value);
    }
  }

  lemma {:induction false} IfSound(p: Program, cond: Cond, thn: seq<Stmt>, els: Else, state: Nulls, env: Nulls,
                                   sums: seq<bool>, any: bool, t: Tree)
    requires PlainProgram(p, sums) && Justified(p, sums) && Below(state, env)
    requires PlainStmt(If(cond, thn, els), state, sums, any)
    requires StmtWalk(If(cond, thn, els), state, sums, any).Ok?
    requires t.Branch? && GoesWay(cond, env, t.taken)
    ensures Respects(RunStmt(p, If(cond, thn, els), env, t), StmtWalk(If(cond, thn, els), state, sums, any))
    decreases t, 0
  {
    BelowNarrowed(cond, state, env, t.taken);
    var w := BlockWalk(thn, Narrowed(cond, state, true), sums, any);
    var elseIn := Narrowed(cond, state, false);
    var e := if els.Else? then BlockWalk(els.b, elseIn, sums, w.any) else Ok(elseIn, false, w.any);
    if t.taken {
      BlockSound(p, thn, Narrowed(cond, state, true), env, sums, any, t.run);
      JoinSound(RunBlock(p, thn, env, t.run), state, w, e, els.Else?, w);
    } else if els.Else? {
      BlockSound(p, els.b, elseIn, env, sums, w.any, t.run);
      JoinSound(RunBlock(p, els.b, env, t.run), state, w, e, true, e);
    } else {
      JoinSound(Falls(env), state, w, e, false, e);
    }
  }

  lemma JoinSound(o: Outcome, before: Nulls, t: Walk, e: Walk, hasElse: bool, taken: Walk)
    requires t.Ok? && e.Ok? && |t.state| == |e.state| == |before| && (taken == t || taken == e)
    requires Respects(o, taken)
    ensures Respects(o, JoinBranches(before, t, e, hasElse))
  {
    if o.Falls? && !t.terminates && !e.terminates { BelowMeet(t.state, e.state, o.env); }
  }

  /** Every round starts knowing at least what the loop was entered with. */
  lemma {:induction false} LoopSound(p: Program, cond: Cond, body: seq<Stmt>, state: Nulls, env: Nulls,
                                     sums: seq<bool>, any: bool, rounds: seq<Tree>)
    requires PlainProgram(p, sums) && Justified(p, sums) && Below(state, env)
    requires PlainStmt(While(cond, body), state, sums, any) && BlockWalk(body, state, sums, any).Ok?
    ensures Respects(RunLoop(p, cond, body, env, rounds), StmtWalk(While(cond, body), state, sums, any))
    decreases rounds, 1, body
  {
    var b := BlockWalk(body, state, sums, any);
    BelowMeet(state, b.state, env);
    if |rounds| > 0 && rounds[0].Branch? && GoesWay(cond, env, rounds[0].taken) && rounds[0].taken {
      BlockSound(p, body, state, env, sums, any, rounds[0].run);
      var o := RunBlock(p, body, env, rounds[0].run);
      if o.Falls? {
        assert Below(state, o.env);
        LoopSound(p, cond, body, state, o.env, sums, any, rounds[1..]);
      }
    }
  }

  lemma {:induction false} BlockSound(p: Program, b: seq<Stmt>, state: Nulls, env: Nulls, sums: seq<bool>, any: bool, ts: seq<Tree>)
    requires PlainProgram(p, sums) && Justified(p, sums) && PlainBlock(b, state, sums, any) && Below(state, env)
    requires BlockWalk(b, state, sums, any).Ok?
    ensures Respects(RunBlock(p, b, env, ts), BlockWalk(b, state, sums, any))
    decreases ts, 1, b
  {
    if |b| > 0 && |ts| > 0 {
      StmtSound(p, b[0], state, env, sums, any, ts[0]);
      var w := StmtWalk(b[0], state, sums, any);
      var o := RunStmt(p, b[0], env, ts[0]);
      if o.Falls? { BlockSound(p, b[1..], w.state, o.env, sums, w.any, ts[1..]); }
    }
  }

  /** No terminating call of a function marked true returns null. */
  lemma NeverNullSound(p: Program, sums: seq<bool>, f: nat)
    requires PlainProgram(p, sums) && Justified(p, sums) && At(sums, f)
    ensures !CanReturn(p, f, false)
  {
    forall t ensures Eval(p, Invoke(f), [], t) != Some(false) {
      if Eval(p, Invoke(f), [], t).Some? { EvalSound(p, Invoke(f), [], [], sums, t); }
    }
  }

  // ------------------------------------------------------------------------ fixpoint

  /** The part of the table that was there when `f` was marked. */
  function Earlier(p: Program, sums: seq<bool>, rank: map<nat, nat>, f: nat): (r: seq<bool>)
    ensures |r| == |sums|
  {
    seq(|sums|, g requires 0 <= g < |sums| =>
      At(p.certain, g) || (sums[g] && g in rank && f in rank && rank[g] < rank[f]))
  }

  /** Every entry that is not certain rests on entries marked before it. */
  ghost predicate WellFounded(p: Program, sums: seq<bool>, rank: map<nat, nat>) {
    forall f | At(sums, f) && !At(p.certain, f) ::
      f in rank && f in p.bodies && Accepts(p.bodies[f], Earlier(p, sums, rank, f))
  }

  /** Nothing more can be marked. */
  ghost predicate Complete(p: Program, sums: seq<bool>) {
    forall f | f in p.bodies && f < |sums| && Accepts(p.bodies[f], sums) :: sums[f]
  }

  // More summaries never make the walk worse.

  predicate BetterWalk(a: Walk, b: Walk) {
    a.Ok? ==> b.Ok? && a.terminates == b.terminates && a.any == b.any && Leq(a.state, b.state)
  }

  lemma {:induction false} FlowGrows(e: Expr, s1: Nulls, s2: Nulls, a: seq<bool>, b: seq<bool>)
    requires Leq(s1, s2) && Leq(a, b) && Flow(e, s1, a)
    ensures Flow(e, s2, b)
    decreases e
  {
    match e
    case Cast(_, inner) => FlowGrows(inner, s1, s2, a, b);
    case Deref(inner) => FlowGrows(inner, s1, s2, a, b);
    case _ =>
  }

  lemma {:induction false} StmtGrows(s: Stmt, s1: Nulls, s2: Nulls, a: seq<bool>, b: seq<bool>, any: bool)
    requires Leq(s1, s2) && Leq(a, b)
    ensures BetterWalk(StmtWalk(s, s1, a, any), StmtWalk(s, s2, b, any))
    decreases s, 1
  {
    match s
    case Let(_, e) => if Flow(e, s1, a) { FlowGrows(e, s1, s2, a, b); }
    case Set(_, e) => if Flow(e, s1, a) { FlowGrows(e, s1, s2, a, b); }
    case Return(v) => if v.Some? && Flow(v.value, s1, a) { FlowGrows(v.value, s1, s2, a, b); }
    case If(_, _, _) => IfGrows(s, s1, s2, a, b, any);
    case While(_, body) => BlockGrows(body, s1, s2, a, b, any);
    case Nested(body) => BlockGrows(body, s1, s2, a, b, any);
    case Effect =>
  }

  lemma {:induction false} IfGrows(s: Stmt, s1: Nulls, s2: Nulls, a: seq<bool>, b: seq<bool>, any: bool)
    requires s.If? && Leq(s1, s2) && Leq(a, b)
    ensures BetterWalk(StmtWalk(s, s1, a, any), StmtWalk(s, s2, b, any))
    decreases s, 0
  {
    BlockGrows(s.thn, Narrowed(s.cond, s1, true), Narrowed(s.cond, s2, true), a, b, any);
    var t := BlockWalk(s.thn, Narrowed(s.cond, s1, true), a, any);
    if t.Ok? && s.els.Else? { BlockGrows(s.els.b, Narrowed(s.cond, s1, false), Narrowed(s.cond, s2, false), a, b, t.any); }
  }

  lemma {:induction false} BlockGrows(ss: seq<Stmt>, s1: Nulls, s2: Nulls, a: seq<bool>, b: seq<bool>, any: bool)
    requires Leq(s1, s2) && Leq(a, b)
    ensures BetterWalk(BlockWalk(ss, s1, a, any), BlockWalk(ss, s2, b, any))
    decreases ss
  {
    if |ss| > 0 {
      StmtGrows(ss[0], s1, s2, a, b, any);
      var r, r2 := StmtWalk(ss[0], s1, a, any), StmtWalk(ss[0], s2, b, any);
      if r.Ok? && !r.terminates { BlockGrows(ss[1..], r.state, r2.state, a, b, r.any); }
    }
  }

  /** A well-founded table is justified as a whole. */
  lemma WellFoundedIsJustified(p: Program, sums: seq<bool>, rank: map<nat, nat>)
    requires WellFounded(p, sums, rank) && Leq(p.certain, sums)
    ensures Justified(p, sums)
  {
    forall f | At(sums, f) && !At(p.certain, f) ensures Accepts(p.bodies[f], sums) {
      var body := p.bodies[f];
      var before := Earlier(p, sums, rank, f);
      assert Leq(before, sums);
      BlockGrows(body.body, body.sure, body.sure, before, sums, false);
    }
  }

  function Unmarked(sums: seq<bool>): set<nat> {
    set f | 0 <= f < |sums| && !sums[f]
  }

  /** The fixpoint; `order` lists the functions with a body. */
  method ReturnSummaries(p: Program, order: seq<nat>) returns (sums: seq<bool>, ghost rank: map<nat, nat>)
    requires (set f | f in order) == p.bodies.Keys && forall f | f in p.bodies :: f < |p.certain|
    ensures Leq(p.certain, sums) && WellFounded(p, sums, rank) && Complete(p, sums)
  {
    sums, rank := p.certain, map[];
    var changed := true;
    while changed
      invariant Marked(p, sums, rank) && (!changed ==> Complete(p, sums))
      decreases Unmarked(sums), changed
    {
      sums, rank, changed := Pass(p, order, sums, rank);
    }
  }

  /** Marks so far: ranks are handed out in order. */
  ghost predicate Marked(p: Program, sums: seq<bool>, rank: map<nat, nat>) {
    && Leq(p.certain, sums)
    && WellFounded(p, sums, rank)
    && (forall f | f in rank :: At(sums, f) && !At(p.certain, f) && rank[f] < |rank|)
  }

  lemma MarkKeeps(p: Program, sums: seq<bool>, rank: map<nat, nat>, f: nat)
    requires Marked(p, sums, rank) && f in p.bodies && f < |sums| && !sums[f] && Accepts(p.bodies[f], sums)
    ensures Marked(p, sums[f := true], rank[f := |rank|])
  {
    var after, next := sums[f := true], rank[f := |rank|];
    assert |next| == |rank| + 1;
    forall g | At(after, g) && !At(p.certain, g)
      ensures g in next && g in p.bodies && Accepts(p.bodies[g], Earlier(p, after, next, g))
    {
      if g == f {
        assert Earlier(p, after, next, f) == sums;
      } else {
        assert Earlier(p, after, next, g) == Earlier(p, sums, rank, g);
      }
    }
  }

  predicate Settled(p: Program, sums: seq<bool>, f: nat) {
    f in p.bodies && f < |sums| && Accepts(p.bodies[f], sums) ==> sums[f]
  }

  lemma MarkShrinks(sums: seq<bool>, f: nat)
    requires f < |sums| && !sums[f]
    ensures Unmarked(sums[f := true]) < Unmarked(sums)
  {
    assert f in Unmarked(sums) && f !in Unmarked(sums[f := true]);
  }

  /** One function of a pass. */
  method Visit(p: Program, f: nat, start: seq<bool>, ghost ranked: map<nat, nat>)
    returns (sums: seq<bool>, ghost rank: map<nat, nat>, changed: bool)
    requires f in p.bodies && f < |p.certain| && Marked(p, start, ranked)
    ensures Marked(p, sums, rank)
    ensures !changed ==> sums == start && Settled(p, start, f)
    ensures changed ==> Unmarked(sums) < Unmarked(start)
  {
    sums, rank, changed := start, ranked, false;
    if start[f] { return; }
    changed := FunctionReturnsNonnull(p.bodies[f], start);
    if changed {
      MarkKeeps(p, start, ranked, f);
      MarkShrinks(start, f);
      sums, rank := start[f := true], ranked[f := |ranked|];
    }
  }

  method Pass(p: Program, order: seq<nat>, start: seq<bool>, ghost ranked: map<nat, nat>)
    returns (sums: seq<bool>, ghost rank: map<nat, nat>, changed: bool)
    requires (set f | f in order) == p.bodies.Keys && forall f | f in p.bodies :: f < |p.certain|
    requires Marked(p, start, ranked)
    ensures Marked(p, sums, rank)
    ensures !changed ==> sums == start && Complete(p, sums)
    ensures changed ==> Unmarked(sums) < Unmarked(start)
  {
    sums, rank, changed := start, ranked, false;
    for i := 0 to |order|
      invariant Marked(p, sums, rank)
      invariant !changed ==> sums == start && forall k | 0 <= k < i :: Settled(p, start, order[k])
      invariant changed ==> Unmarked(sums) < Unmarked(start)
    {
      assert order[i] in p.bodies.Keys;
      var marked: bool;
      sums, rank, marked := Visit(p, order[i], sums, rank);
      changed := changed || marked;
    }
    forall f | !changed && f in p.bodies && f < |sums| && Accepts(p.bodies[f], sums) ensures sums[f] {
      assert f in order && Settled(p, start, f);
    }
  }

  // ------------------------------------------------------------- the order is irrelevant

  lemma {:induction false} NoMoreThan(p: Program, a: seq<bool>, rank: map<nat, nat>, b: seq<bool>, f: nat)
    requires |a| == |b| && WellFounded(p, a, rank) && Leq(p.certain, b) && Complete(p, b)
    requires At(a, f)
    ensures b[f]
    decreases if f in rank then rank[f] + 1 else 0
  {
    if !At(p.certain, f) {
      var before := Earlier(p, a, rank, f);
      forall g | 0 <= g < |before| && before[g] ensures b[g] {
        if !At(p.certain, g) { NoMoreThan(p, a, rank, b, g); }
      }
      var body := p.bodies[f];
      BlockGrows(body.body, body.sure, body.sure, before, b, false);
    }
  }

  /** Any two results of the fixpoint are the same table. */
  lemma SummariesUnique(p: Program, a: seq<bool>, rankA: map<nat, nat>, b: seq<bool>, rankB: map<nat, nat>)
    requires Leq(p.certain, a) && WellFounded(p, a, rankA) && Complete(p, a)
    requires Leq(p.certain, b) && WellFounded(p, b, rankB) && Complete(p, b)
    ensures a == b
  {
    forall f | 0 <= f < |a| ensures a[f] == b[f] {
      if a[f] { NoMoreThan(p, a, rankA, b, f); }
      if b[f] { NoMoreThan(p, b, rankB, a, f); }
    }
  }

  // -------------------------------- why a loop must forget nothing, and references are out

  /** Accepted with nothing known about any function, and yet a call returns null. */
  ghost predicate Fooled(p: Program, f: nat) {
    f in p.bodies && Accepts(p.bodies[f], p.certain) && CanReturn(p, f, false)
  }

  lemma Walked(s: Stmt, rest: seq<Stmt>, state: Nulls, sums: seq<bool>, any: bool)
    ensures var r := StmtWalk(s, state, sums, any);
            BlockWalk([s] + rest, state, sums, any) ==
            if r.Bad? || r.terminates then r else BlockWalk(rest, r.state, sums, r.any)
  {
    assert ([s] + rest)[1..] == rest;
  }

  lemma Ran(p: Program, s: Stmt, rest: seq<Stmt>, env: Nulls, t: Tree, ts: seq<Tree>)
    ensures var o := RunStmt(p, s, env, t);
            RunBlock(p, [s] + rest, env, [t] + ts) == if o.Falls? then RunBlock(p, rest, o.env, ts) else o
  {
    assert ([s] + rest)[1..] == rest && ([t] + ts)[1..] == ts;
  }

  lemma Went(p: Program, cond: Cond, body: seq<Stmt>, env: Nulls, run: seq<Tree>, rounds: seq<Tree>)
    requires GoesWay(cond, env, true) && RunBlock(p, body, env, run).Falls?
    ensures RunLoop(p, cond, body, env, [Branch(true, run)] + rounds) ==
            RunLoop(p, cond, body, RunBlock(p, body, env, run).env, rounds)
  {
    assert ([Branch(true, run)] + rounds)[1..] == rounds;
  }

  const BIT := Bit(true)

  /** The loop body: keep the old value, then clear it. */
  function Shift(): seq<Stmt> {
    [Set(1, Var(0))] + ([Set(0, Null)] + [])
  }

  function LoopBody(): seq<Stmt> {
    [Set(1, Fresh)] + ([Set(0, Fresh)] + ([While(Other, Shift())] + ([Return(Some(Var(1)))] + [])))
  }

  lemma ShiftRuns(p: Program, env: Nulls)
    requires |env| == 2
    ensures RunBlock(p, Shift(), env, [BIT] + ([BIT] + [])) == Falls([false, env[0]])
  {
    Ran(p, Set(1, Var(0)), [Set(0, Null)] + [], env, BIT, [BIT] + []);
    var next := Put(env, 1, env[0]);
    Ran(p, Set(0, Null), [], next, BIT, []);
    assert Put(next, 0, false) == [false, env[0]];
  }

  lemma ShiftWalks(sums: seq<bool>)
    ensures BlockWalk(Shift(), [true, true], sums, false) == Ok([false, true], false, false)
  {
    Walked(Set(1, Var(0)), [Set(0, Null)] + [], [true, true], sums, false);
    assert Put([true, true], 1, true) == [true, true] && Put([true, true], 0, false) == [false, true];
    Walked(Set(0, Null), [], [true, true], sums, false);
  }

  lemma LoopBodyWalks(sums: seq<bool>)
    ensures var w := BlockWalk(LoopBody(), [false, false], sums, false); w.Ok? && w.any
  {
    var ret := [Return(Some(Var(1)))] + [];
    var loop := [While(Other, Shift())] + ret;
    Walked(Set(1, Fresh), [Set(0, Fresh)] + loop, [false, false], sums, false);
    assert Put([false, false], 1, true) == [false, true] && Put([false, true], 0, true) == [true, true];
    Walked(Set(0, Fresh), loop, [false, true], sums, false);
    Walked(While(Other, Shift()), ret, [true, true], sums, false);
    ShiftWalks(sums);
    assert Meet([true, true], [false, true]) == [false, true];
    Walked(Return(Some(Var(1))), [], [false, true], sums, false);
  }

  lemma LoopBodyRuns(p: Program) returns (run: seq<Tree>)
    ensures RunBlock(p, LoopBody(), [false, false], run) == Returned(Some(false))
  {
    var round, last := [BIT] + ([BIT] + []), [Branch(false, [])];
    var rounds := [Branch(true, round)] + ([Branch(true, round)] + last);
    ShiftRuns(p, [true, true]);
    Went(p, Other, Shift(), [true, true], round, [Branch(true, round)] + last);
    ShiftRuns(p, [false, true]);
    Went(p, Other, Shift(), [false, true], round, last);
    assert RunLoop(p, Other, Shift(), [false, false], last) == Falls([false, false]);
    var ret := [Return(Some(Var(1)))] + [];
    var loop := [While(Other, Shift())] + ret;
    run := [BIT] + ([BIT] + ([Loop(rounds)] + ([BIT] + [])));
    Ran(p, Set(1, Fresh), [Set(0, Fresh)] + loop, [false, false], BIT, [BIT] + ([Loop(rounds)] + ([BIT] + [])));
    assert Put([false, false], 1, true) == [false, true] && Put([false, true], 0, true) == [true, true];
    Ran(p, Set(0, Fresh), loop, [false, true], BIT, [Loop(rounds)] + ([BIT] + []));
    Ran(p, While(Other, Shift()), ret, [true, true], Loop(rounds), [BIT] + []);
    Ran(p, Return(Some(Var(1))), [], [false, false], BIT, []);
  }

  /** `y = alloc; x = alloc; while (..) { y = x; x = null; } return y;` - the body is
      walked once, from the state before the loop. */
  lemma LoopHole(p: Program)
    requires p == Program([false], map[0 := Fn([false, false], LoopBody())])
    ensures Fooled(p, 0)
  {
    LoopBodyWalks(p.certain);
    var run := LoopBodyRuns(p);
    assert Eval(p, Invoke(0), [], Call([false, false], run)) == Some(false);
  }

  /** `return *r;` for a reference parameter `r` to a pointer: the reference is not null,
      what it refers to may be. */
  lemma DerefHole(p: Program, body: seq<Stmt>)
    requires body == [Return(Some(Deref(Var(0))))]
    requires p == Program([false], map[0 := Fn([true], body)])
    ensures Fooled(p, 0)
  {
    var run := [Bit(false)];
    assert BlockWalk(body, [true], [false], false) == Ok([true], true, true);
    assert RunStmt(p, body[0], [true], Bit(false)) == Returned(Some(false));
    assert RunBlock(p, body, [true], run) == Returned(Some(false));
    assert Eval(p, Invoke(0), [], Call([true], run)) == Some(false);
  }
}
