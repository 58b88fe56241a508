/** What the never-null walk loses: nothing, against the single paths through a body.  A path
    takes one way at each `if`, goes around each loop once or not at all, and keeps the set of
    locals that it alone knows not to be null. */
module NullPaths {
  import opened Options
  import opened NullFlow
  import NeverNull

  /** The way one statement is passed: `Turn` goes into the first arm (`taken`), the second
      arm, the loop body or the nested block. */
  datatype Route = Pass | Turn(taken: bool, inner: seq<Route>)

  /** `Lost`: the route does not fit.  `Ends`: a return, of nothing or of a value that is
      `known` not to be null. */
  datatype End = Lost | Through(facts: set<nat>) | Ends(known: bool)

  /** Do the facts say that `e` is not null? */
  predicate Knows(e: Expr, facts: set<nat>, sums: seq<bool>) {
    || e.Fresh?
    || (e.Var? && e.x in facts)
    || (e.Cast? && !e.checked && Knows(e.e, facts, sums))
    || (e.Invoke? && (IsStringBuiltin(e.f) || (e.f < |sums| && sums[e.f])))
    || (e.Deref? && Knows(e.e, facts, sums))
  }

  /** Going one way at a condition teaches that its local is not null. */
  function Taught(cond: Cond, taken: bool): set<nat> {
    if cond.NotNull? && taken then {cond.x}
    else if cond.IsNull? && !taken then {cond.x}
    else {}
  }

  /** A path through a body with `n` locals. */
  function FollowStmt(n: nat, s: Stmt, facts: set<nat>, sums: seq<bool>, r: Route): End
    decreases r, 1
  {
    match s
    case Let(x, e) => Keep(n, x, Knows(e, facts, sums), facts)
    case Set(x, e) => Keep(n, x, Knows(e, facts, sums), facts)
    case Return(v) => Ends(v.None? || Knows(v.value, facts, sums))
    case If(cond, thn, els) =>
      if r.Pass? then Lost
      else
        var arm := if r.taken then thn else if els.Else? then els.b else [];
        Follow(n, arm, facts + InRange(n, Taught(cond, r.taken)), sums, r.inner)
    case While(_, body) => if r.Pass? then Through(facts) else Follow(n, body, facts, sums, r.inner)
    case Nested(body) => if r.Pass? then Lost else Follow(n, body, facts, sums, r.inner)
    case Effect => Through(facts)
  }

  function InRange(n: nat, xs: set<nat>): set<nat> {
    set x | x in xs && x < n
  }

  function Keep(n: nat, x: nat, known: bool, facts: set<nat>): End {
    Through(if x >= n then facts else if known then facts + {x} else facts - {x})
  }

  function Follow(n: nat, b: seq<Stmt>, facts: set<nat>, sums: seq<bool>, rs: seq<Route>): End
    decreases rs, 1
  {
    if |b| == 0 then Through(facts)
    else if |rs| == 0 then Lost
    else
      var end := FollowStmt(n, b[0], facts, sums, rs[0]);
      if end.Through? then Follow(n, b[1..], end.facts, sums, rs[1..]) else end
  }

  /** A route that every path can take to the end of `b`. */
  ghost predicate PassesAll(n: nat, b: seq<Stmt>, sums: seq<bool>, rs: seq<Route>) {
    forall facts :: Follow(n, b, facts, sums, rs).Through?
  }

  /** The body of every loop can be left at its end. */
  ghost predicate LoopsFall(s: Stmt, n: nat, sums: seq<bool>)
    decreases s, 0
  {
    match s
    case If(_, thn, els) => AllLoopsFall(thn, n, sums) && (els.Else? ==> AllLoopsFall(els.b, n, sums))
    case While(_, body) => AllLoopsFall(body, n, sums) && exists rs :: PassesAll(n, body, sums, rs)
    case Nested(body) => AllLoopsFall(body, n, sums)
    case _ => true
  }

  ghost predicate AllLoopsFall(b: seq<Stmt>, n: nat, sums: seq<bool>)
    decreases b
  {
    |b| == 0 || (LoopsFall(b[0], n, sums) && AllLoopsFall(b[1..], n, sums))
  }

  // ------------------------------------------------------------- single conditions

  ghost predicate Fits(state: Nulls, cond: Cond, taken: bool, env: Nulls) {
    Below(state, env) && GoesWay(cond, env, taken)
  }

  /** Narrowing is the best there is: it learns exactly what holds in all the environments
      that fit the state and go this way. */
  lemma NarrowedIsBest(cond: Cond, state: Nulls, taken: bool, i: nat)
    requires i < |state| && exists env :: Fits(state, cond, taken, env)
    ensures |Narrowed(cond, state, taken)| == |state|
    ensures Narrowed(cond, state, taken)[i] <==> forall env | Fits(state, cond, taken, env) :: env[i]
  {
    if !Narrowed(cond, state, taken)[i] {
      var env :| Fits(state, cond, taken, env);
      assert Fits(state, cond, taken, env[i := false]);
    }
  }

  // ------------------------------------------------- the walk is below every path

  /** The facts of the walk are among those of the path. */
  predicate Among(state: Nulls, facts: set<nat>) {
    forall i | 0 <= i < |state| :: state[i] ==> i in facts
  }

  /** The walk allows for this end of a path. */
  predicate Allows(w: Walk, end: End) {
    w.Ok? ==>
      match end
      case Lost => true
      case Through(facts) => !w.terminates && Among(w.state, facts)
      case Ends(known) => known && w.any
  }

  lemma {:induction false} FlowKnows(e: Expr, state: Nulls, facts: set<nat>, sums: seq<bool>)
    requires Among(state, facts) && Flow(e, state, sums)
    ensures Knows(e, facts, sums)
    decreases e
  {
    match e
    case Cast(_, inner) => FlowKnows(inner, state, facts, sums);
    case Deref(inner) => FlowKnows(inner, state, facts, sums);
    case _ =>
  }

  /** A return once seen stays seen. */
  predicate Remembers(any: bool, w: Walk) {
    w.Ok? && any ==> w.any
  }

  lemma {:induction false} StmtRemembers(s: Stmt, state: Nulls, sums: seq<bool>, any: bool)
    ensures Remembers(any, StmtWalk(s, state, sums, any))
    decreases s, 0
  {
    match s
    case If(cond, thn, els) =>
      var t := BlockWalk(thn, Narrowed(cond, state, true), sums, any);
      Remembered(thn, Narrowed(cond, state, true), sums, any);
      if t.Ok? && els.Else? { Remembered(els.b, Narrowed(cond, state, false), sums, t.any); }
    case While(_, body) => Remembered(body, state, sums, any);
    case Nested(body) => Remembered(body, state, sums, any);
    case _ =>
  }

  lemma {:induction false} Remembered(b: seq<Stmt>, state: Nulls, sums: seq<bool>, any: bool)
    ensures Remembers(any, BlockWalk(b, state, sums, any))
    decreases b
  {
    if |b| > 0 {
      var r := StmtWalk(b[0], state, sums, any);
      StmtRemembers(b[0], state, sums, any);
      if r.Ok? && !r.terminates { Remembered(b[1..], r.state, sums, r.any); }
    }
  }

  lemma {:induction false} StmtAllows(s: Stmt, state: Nulls, facts: set<nat>, sums: seq<bool>, any: bool, r: Route)
    requires Among(state, facts)
    ensures Allows(StmtWalk(s, state, sums, any), FollowStmt(|state|, s, facts, sums, r))
    decreases s, 1
  {
    match s
    case Let(_, e) => if Flow(e, state, sums) { FlowKnows(e, state, facts, sums); }
    case Set(_, e) => if Flow(e, state, sums) { FlowKnows(e, state, facts, sums); }
    case Return(v) => if v.Some? && Flow(v.value, state, sums) { FlowKnows(v.value, state, facts, sums); }
    case If(_, _, _) => IfAllows(s, state, facts, sums, any, r);
    case While(_, body) => if r.Turn? { BlockAllows(body, state, facts, sums, any, r.inner); }
    case Nested(body) => if r.Turn? { BlockAllows(body, state, facts, sums, any, r.inner); }
    case Effect =>
  }

  lemma {:induction false} IfAllows(s: Stmt, state: Nulls, facts: set<nat>, sums: seq<bool>, any: bool, r: Route)
    requires s.If? && Among(state, facts)
    ensures Allows(StmtWalk(s, state, sums, any), FollowStmt(|state|, s, facts, sums, r))
    decreases s, 0
  {
    var t := BlockWalk(s.thn, Narrowed(s.cond, state, true), sums, any);
    if r.Turn? && t.Ok? {
      var learnt := facts + InRange(|state|, Taught(s.cond, r.taken));
      assert Among(Narrowed(s.cond, state, r.taken), learnt);
      if r.taken {
        BlockAllows(s.thn, Narrowed(s.cond, state, true), learnt, sums, any, r.inner);
        if s.els.Else? { Remembered(s.els.b, Narrowed(s.cond, state, false), sums, t.any); }
      } else if s.els.Else? {
        BlockAllows(s.els.b, Narrowed(s.cond, state, false), learnt, sums, t.any, r.inner);
      }
    }
  }

  lemma {:induction false} BlockAllows(b: seq<Stmt>, state: Nulls, facts: set<nat>, sums: seq<bool>, any: bool, rs: seq<Route>)
    requires Among(state, facts)
    ensures Allows(BlockWalk(b, state, sums, any), Follow(|state|, b, facts, sums, rs))
    decreases b
  {
    if |b| > 0 && |rs| > 0 {
      var w := StmtWalk(b[0], state, sums, any);
      var end := FollowStmt(|state|, b[0], facts, sums, rs[0]);
      StmtAllows(b[0], state, facts, sums, any, rs[0]);
      if w.Ok? && !w.terminates {
        Remembered(b[1..], w.state, sums, w.any);
        if end.Through? { BlockAllows(b[1..], w.state, end.facts, sums, w.any, rs[1..]); }
      }
    }
  }

  // ----------------------------------------- whatever the walk forgets, a path forgets

  /** A path's facts miss the local that a route needs missing, if any. */
  predicate Missing(need: Option<nat>, facts: set<nat>) {
    need.Some? ==> need.value !in facts
  }

  predicate Unknown(need: Option<nat>, state: Nulls) {
    need.Some? ==> !At(state, need.value)
  }

  /** What becomes of the value of `e` when it is not known: it is because of one local. */
  lemma {:induction false} FlowNeeds(e: Expr, state: Nulls, sums: seq<bool>) returns (need: Option<nat>)
    requires !Flow(e, state, sums)
    ensures Unknown(need, state)
    ensures forall facts | Missing(need, facts) :: !Knows(e, facts, sums)
    decreases e
  {
    match e
    case Var(x) => need := Some(x);
    case Cast(checked, inner) => if checked { need := None; } else { need := FlowNeeds(inner, state, sums); }
    case Deref(inner) => need := FlowNeeds(inner, state, sums);
    case _ => need := None;
  }

  /** A route that every path can take through `s`. */
  ghost predicate Passes(n: nat, s: Stmt, sums: seq<bool>, r: Route) {
    forall facts :: FollowStmt(n, s, facts, sums, r).Through?
  }

  lemma {:induction false} FindPass(s: Stmt, state: Nulls, sums: seq<bool>, any: bool) returns (r: Route)
    requires var w := StmtWalk(s, state, sums, any); w.Ok? && !w.terminates
    ensures Passes(|state|, s, sums, r)
    decreases s, 0
  {
    r := Pass;
    match s {
      case If(cond, thn, els) =>
        var t := BlockWalk(thn, Narrowed(cond, state, true), sums, any);
        if !t.terminates {
          var rs := FindPasses(thn, Narrowed(cond, state, true), sums, any);
          r := Turn(true, rs);
        } else if els.Else? {
          var rs := FindPasses(els.b, Narrowed(cond, state, false), sums, t.any);
          r := Turn(false, rs);
        } else {
          r := Turn(false, []);
        }
      case Nested(body) =>
        var rs := FindPasses(body, state, sums, any);
        r := Turn(true, rs);
      case _ =>
    }
  }

  lemma {:induction false} FindPasses(b: seq<Stmt>, state: Nulls, sums: seq<bool>, any: bool) returns (rs: seq<Route>)
    requires var w := BlockWalk(b, state, sums, any); w.Ok? && !w.terminates
    ensures PassesAll(|state|, b, sums, rs)
    decreases b
  {
    rs := [];
    if |b| > 0 {
      var w := StmtWalk(b[0], state, sums, any);
      var first := FindPass(b[0], state, sums, any);
      var rest := FindPasses(b[1..], w.state, sums, w.any);
      rs := [first] + rest;
      assert rs[1..] == rest;
      forall facts ensures Follow(|state|, b, facts, sums, rs).Through? {
        assert FollowStmt(|state|, b[0], facts, sums, first).Through?;
      }
    }
  }

  /** The walk has seen a return: a path gets to one. */
  ghost predicate Ending(n: nat, b: seq<Stmt>, sums: seq<bool>, rs: seq<Route>) {
    forall facts :: Follow(n, b, facts, sums, rs).Ends?
  }

  ghost predicate EndingStmt(n: nat, s: Stmt, sums: seq<bool>, r: Route) {
    forall facts :: FollowStmt(n, s, facts, sums, r).Ends?
  }

  lemma {:induction false} FindEnd(s: Stmt, state: Nulls, sums: seq<bool>) returns (r: Route)
    requires var w := StmtWalk(s, state, sums, false); w.Ok? && w.any
    ensures EndingStmt(|state|, s, sums, r)
    decreases s, 0
  {
    r := Pass;
    match s {
      case If(cond, thn, els) =>
        var t := BlockWalk(thn, Narrowed(cond, state, true), sums, false);
        if t.any {
          var rs := FindEnds(thn, Narrowed(cond, state, true), sums);
          r := Turn(true, rs);
        } else if els.Else? {
          var rs := FindEnds(els.b, Narrowed(cond, state, false), sums);
          r := Turn(false, rs);
        }
      case While(_, body) =>
        var rs := FindEnds(body, state, sums);
        r := Turn(true, rs);
      case Nested(body) =>
        var rs := FindEnds(body, state, sums);
        r := Turn(true, rs);
      case _ =>
    }
  }

  lemma {:induction false} FindEnds(b: seq<Stmt>, state: Nulls, sums: seq<bool>) returns (rs: seq<Route>)
    requires var w := BlockWalk(b, state, sums, false); w.Ok? && w.any
    ensures Ending(|state|, b, sums, rs)
    decreases b
  {
    rs := [];
    if |b| > 0 {
      var w := StmtWalk(b[0], state, sums, false);
      if w.any {
        var first := FindEnd(b[0], state, sums);
        rs := [first];
        forall facts ensures Follow(|state|, b, facts, sums, rs).Ends? {
          assert FollowStmt(|state|, b[0], facts, sums, first).Ends?;
        }
      } else {
        var first := FindPass(b[0], state, sums, false);
        var rest := FindEnds(b[1..], w.state, sums);
        rs := [first] + rest;
        assert rs[1..] == rest;
        forall facts ensures Follow(|state|, b, facts, sums, rs).Ends? {
          assert FollowStmt(|state|, b[0], facts, sums, first).Through?;
        }
      }
    }
  }

  // A route on which local `i` is not known at the end, whenever `need` is not at the start.

  ghost predicate ForgetsStmt(n: nat, s: Stmt, sums: seq<bool>, need: Option<nat>, r: Route, i: nat) {
    forall facts | Missing(need, facts) ::
      FollowStmt(n, s, facts, sums, r).Through? && i !in FollowStmt(n, s, facts, sums, r).facts
  }

  ghost predicate Forgets(n: nat, b: seq<Stmt>, sums: seq<bool>, need: Option<nat>, rs: seq<Route>, i: nat) {
    forall facts | Missing(need, facts) ::
      Follow(n, b, facts, sums, rs).Through? && i !in Follow(n, b, facts, sums, rs).facts
  }

  /** What is unknown after narrowing was unknown before, and is not what was taught. */
  lemma NotTaught(cond: Cond, state: Nulls, taken: bool, need: Option<nat>, facts: set<nat>)
    requires Unknown(need, Narrowed(cond, state, taken)) && Missing(need, facts)
    ensures Unknown(need, state) && Missing(need, facts + InRange(|state|, Taught(cond, taken)))
  {
  }

  lemma LoopBodyFalls(body: seq<Stmt>, state: Nulls, sums: seq<bool>, any: bool)
    requires exists rs :: PassesAll(|state|, body, sums, rs)
    ensures var b := BlockWalk(body, state, sums, any); b.Ok? ==> !b.terminates
  {
    var rs :| PassesAll(|state|, body, sums, rs);
    var facts: set<nat> := set i | 0 <= i < |state| && state[i];
    BlockAllows(body, state, facts, sums, any, rs);
    assert Follow(|state|, body, facts, sums, rs).Through?;
  }

  lemma {:induction false} FindMiss(s: Stmt, state: Nulls, sums: seq<bool>, any: bool, i: nat)
    returns (need: Option<nat>, r: Route)
    requires LoopsFall(s, |state|, sums)
    requires var w := StmtWalk(s, state, sums, any); w.Ok? && !w.terminates && !At(w.state, i)
    ensures Unknown(need, state) && ForgetsStmt(|state|, s, sums, need, r, i)
    decreases s, 1
  {
    need, r := Some(i), Pass;
    match s {
      case Let(x, e) => if i == x < |state| { need := FlowNeeds(e, state, sums); }
      case Set(x, e) => if i == x < |state| { need := FlowNeeds(e, state, sums); }
      case If(_, _, _) => need, r := FindMissIf(s, state, sums, any, i);
      case While(_, body) =>
        LoopBodyFalls(body, state, sums, any);
        if At(state, i) {
          var rs;
          need, rs := FindMisses(body, state, sums, any, i);
          r := Turn(true, rs);
        }
      case Nested(body) =>
        var rs;
        need, rs := FindMisses(body, state, sums, any, i);
        r := Turn(true, rs);
      case _ =>
    }
  }

  lemma {:induction false} FindMissIf(s: Stmt, state: Nulls, sums: seq<bool>, any: bool, i: nat)
    returns (need: Option<nat>, r: Route)
    requires s.If? && LoopsFall(s, |state|, sums)
    requires var w := StmtWalk(s, state, sums, any); w.Ok? && !w.terminates && !At(w.state, i)
    ensures Unknown(need, state) && ForgetsStmt(|state|, s, sums, need, r, i)
    decreases s, 0
  {
    var t := BlockWalk(s.thn, Narrowed(s.cond, state, true), sums, any);
    var rs := [];
    var taken := !t.terminates && !At(t.state, i);
    if taken {
      need, rs := FindMisses(s.thn, Narrowed(s.cond, state, true), sums, any, i);
    } else if s.els.Else? {
      need, rs := FindMisses(s.els.b, Narrowed(s.cond, state, false), sums, t.any, i);
    } else {
      need := Some(i);
    }
    r := Turn(taken, rs);
    forall facts | Missing(need, facts)
      ensures FollowStmt(|state|, s, facts, sums, r).Through? && i !in FollowStmt(|state|, s, facts, sums, r).facts
    {
      NotTaught(s.cond, state, taken, need, facts);
    }
    NotTaught(s.cond, state, taken, need, {});
  }

  lemma {:induction false} FindMisses(b: seq<Stmt>, state: Nulls, sums: seq<bool>, any: bool, i: nat)
    returns (need: Option<nat>, rs: seq<Route>)
    requires AllLoopsFall(b, |state|, sums)
    requires var w := BlockWalk(b, state, sums, any); w.Ok? && !w.terminates && !At(w.state, i)
    ensures Unknown(need, state) && Forgets(|state|, b, sums, need, rs, i)
    decreases b
  {
    if |b| == 0 {
      need, rs := Some(i), [];
    } else {
      var w := StmtWalk(b[0], state, sums, any);
      var later, rest := FindMisses(b[1..], w.state, sums, w.any, i);
      var first;
      need, first := FindLead(b[0], state, sums, any, later);
      rs := [first] + rest;
      assert rs[1..] == rest;
      forall facts | Missing(need, facts)
        ensures Follow(|state|, b, facts, sums, rs).Through? && i !in Follow(|state|, b, facts, sums, rs).facts
      {
        assert Leads(|state|, b[0], sums, need, first, later);
      }
    }
  }

  /** A route through `s` that leaves what is needed later missing. */
  ghost predicate Leads(n: nat, s: Stmt, sums: seq<bool>, need: Option<nat>, r: Route, later: Option<nat>) {
    forall facts | Missing(need, facts) ::
      FollowStmt(n, s, facts, sums, r).Through? && Missing(later, FollowStmt(n, s, facts, sums, r).facts)
  }

  lemma {:induction false} FindLead(s: Stmt, state: Nulls, sums: seq<bool>, any: bool, later: Option<nat>)
    returns (need: Option<nat>, r: Route)
    requires LoopsFall(s, |state|, sums)
    requires var w := StmtWalk(s, state, sums, any); w.Ok? && !w.terminates && Unknown(later, w.state)
    ensures Unknown(need, state) && Leads(|state|, s, sums, need, r, later)
    decreases s, 2
  {
    if later.Some? {
      need, r := FindMiss(s, state, sums, any, later.value);
    } else {
      need := None;
      r := FindPass(s, state, sums, any);
    }
  }

  // A route to a return of something that may be null.

  ghost predicate Exposes(n: nat, b: seq<Stmt>, sums: seq<bool>, need: Option<nat>, rs: seq<Route>) {
    forall facts | Missing(need, facts) :: Follow(n, b, facts, sums, rs) == Ends(false)
  }

  ghost predicate ExposesStmt(n: nat, s: Stmt, sums: seq<bool>, need: Option<nat>, r: Route) {
    forall facts | Missing(need, facts) :: FollowStmt(n, s, facts, sums, r) == Ends(false)
  }

  lemma {:induction false} FindBad(s: Stmt, state: Nulls, sums: seq<bool>, any: bool) returns (need: Option<nat>, r: Route)
    requires LoopsFall(s, |state|, sums) && StmtWalk(s, state, sums, any).Bad?
    ensures Unknown(need, state) && ExposesStmt(|state|, s, sums, need, r)
    decreases s, 0
  {
    var rs := [];
    match s {
      case Return(v) =>
        need := FlowNeeds(v.value, state, sums);
        r := Pass;
      case If(cond, thn, els) =>
        var t := BlockWalk(thn, Narrowed(cond, state, true), sums, any);
        if t.Bad? {
          need, rs := FindBads(thn, Narrowed(cond, state, true), sums, any);
        } else {
          need, rs := FindBads(els.b, Narrowed(cond, state, false), sums, t.any);
        }
        r := Turn(t.Bad?, rs);
        forall facts | Missing(need, facts) ensures FollowStmt(|state|, s, facts, sums, r) == Ends(false) {
          NotTaught(cond, state, t.Bad?, need, facts);
        }
        NotTaught(cond, state, t.Bad?, need, {});
      case While(_, body) =>
        need, rs := FindBads(body, state, sums, any);
        r := Turn(true, rs);
      case Nested(body) =>
        need, rs := FindBads(body, state, sums, any);
        r := Turn(true, rs);
    }
  }

  lemma {:induction false} FindBads(b: seq<Stmt>, state: Nulls, sums: seq<bool>, any: bool) returns (need: Option<nat>, rs: seq<Route>)
    requires AllLoopsFall(b, |state|, sums) && BlockWalk(b, state, sums, any).Bad?
    ensures Unknown(need, state) && Exposes(|state|, b, sums, need, rs)
    decreases b
  {
    var w := StmtWalk(b[0], state, sums, any);
    if w.Bad? {
      var first;
      need, first := FindBad(b[0], state, sums, any);
      rs := [first];
    } else {
      var later, rest := FindBads(b[1..], w.state, sums, w.any);
      var first;
      need, first := FindLead(b[0], state, sums, any, later);
      rs := [first] + rest;
      assert rs[1..] == rest;
      forall facts | Missing(need, facts) ensures Follow(|state|, b, facts, sums, rs) == Ends(false) {
        assert Leads(|state|, b[0], sums, need, first, later);
      }
    }
  }

  // ------------------------------------------------------------------- the result

  /** The locals a body starts out knowing: its parameters whose type excludes null. */
  function Given(fn: Fn): set<nat> {
    set i | 0 <= i < |fn.sure| && fn.sure[i]
  }

  function Path(fn: Fn, sums: seq<bool>, rs: seq<Route>): End {
    Follow(|fn.sure|, fn.body, Given(fn), sums, rs)
  }

  /** A body is accepted exactly when some path gets to a return, and no path returns a value
      that it does not itself know to differ from null. */
  lemma AcceptsByPaths(fn: Fn, sums: seq<bool>)
    requires AllLoopsFall(fn.body, |fn.sure|, sums)
    ensures Accepts(fn, sums) <==>
            (exists rs :: Path(fn, sums, rs).Ends?) && (forall rs :: Path(fn, sums, rs) != Ends(false))
  {
    var w := BlockWalk(fn.body, fn.sure, sums, false);
    forall rs ensures Allows(w, Path(fn, sums, rs)) {
      BlockAllows(fn.body, fn.sure, Given(fn), sums, false, rs);
    }
    if w.Bad? {
      var need, rs := FindBads(fn.body, fn.sure, sums, false);
      assert Path(fn, sums, rs) == Ends(false);
    } else if w.any {
      var rs := FindEnds(fn.body, fn.sure, sums);
      assert Path(fn, sums, rs).Ends?;
    }
  }

  predicate NoLoop(s: Stmt)
    decreases s, 0
  {
    match s
    case If(_, thn, els) => NoLoops(thn) && (els.Else? ==> NoLoops(els.b))
    case While(_, _) => false
    case Nested(body) => NoLoops(body)
    case _ => true
  }

  predicate NoLoops(b: seq<Stmt>)
    decreases b
  {
    |b| == 0 || (NoLoop(b[0]) && NoLoops(b[1..]))
  }

  lemma {:induction false} WithoutLoops(b: seq<Stmt>, n: nat, sums: seq<bool>)
    requires NoLoops(b)
    ensures AllLoopsFall(b, n, sums)
    decreases b
  {
    if |b| > 0 {
      match b[0] {
        case If(_, thn, els) =>
          WithoutLoops(thn, n, sums);
          if els.Else? { WithoutLoops(els.b, n, sums); }
        case Nested(body) => WithoutLoops(body, n, sums);
        case _ =>
      }
      WithoutLoops(b[1..], n, sums);
    }
  }

  // ---------------------------------------------------------------- returning loops

  lemma Followed(n: nat, s: Stmt, rest: seq<Stmt>, facts: set<nat>, sums: seq<bool>, rs: seq<Route>)
    ensures Follow(n, [s] + rest, facts, sums, rs) ==
            if |rs| == 0 then Lost
            else
              var end := FollowStmt(n, s, facts, sums, rs[0]);
              if end.Through? then Follow(n, rest, end.facts, sums, rs[1..]) else end
  {
    assert ([s] + rest)[0] == s && ([s] + rest)[1..] == rest;
  }

  const SAVED: Stmt := Return(Some(Fresh))
  const LAST: Stmt := Return(Some(Var(0)))

  /** Clears the parameter and returns. */
  const LEAVE: seq<Stmt> := [Set(0, Null)] + ([SAVED] + [])

  const LEAVER: Fn := Fn([true], [While(Other, LEAVE)] + ([LAST] + []))

  lemma LeaveWalks(sums: seq<bool>)
    ensures BlockWalk(LEAVE, [true], sums, false) == Ok([false], true, true)
  {
    NeverNull.Walked(Set(0, Null), [SAVED] + [], [true], sums, false);
    assert [true][0 := false] == [false];
    NeverNull.Walked(SAVED, [], [false], sums, false);
  }

  lemma LeaveEnds(rs: seq<Route>, sums: seq<bool>)
    ensures var end := Follow(1, LEAVE, {0}, sums, rs); end == Lost || end == Ends(true)
  {
    Followed(1, Set(0, Null), [SAVED] + [], {0}, sums, rs);
    if |rs| > 0 { Followed(1, SAVED, [], {0} - {0}, sums, rs[1..]); }
  }

  lemma LeaverPath(rs: seq<Route>, sums: seq<bool>)
    ensures Path(LEAVER, sums, rs) != Ends(false)
    ensures rs == [Pass] + [Pass] ==> Path(LEAVER, sums, rs) == Ends(true)
  {
    assert Given(LEAVER) == {0};
    Followed(1, While(Other, LEAVE), [LAST] + [], {0}, sums, rs);
    if |rs| > 0 {
      if rs[0].Turn? {
        LeaveEnds(rs[0].inner, sums);
      } else {
        Followed(1, LAST, [], {0}, sums, rs[1..]);
      }
    }
  }

  /** Paths must be able to leave loop bodies: where one always returns, the walk takes what
      it knew at the return along, and refuses a body whose every path is in order. */
  lemma ReturningLoop(sums: seq<bool>)
    ensures !Accepts(LEAVER, sums)
    ensures exists rs :: Path(LEAVER, sums, rs).Ends?
    ensures forall rs :: Path(LEAVER, sums, rs) != Ends(false)
  {
    LeaveWalks(sums);
    assert Meet([true], [false]) == [false];
    NeverNull.Walked(While(Other, LEAVE), [LAST] + [], [true], sums, false);
    NeverNull.Walked(LAST, [], [false], sums, true);
    LeaverPath([Pass] + [Pass], sums);
    forall rs ensures Path(LEAVER, sums, rs) != Ends(false) {
      LeaverPath(rs, sums);
    }
  }
}
