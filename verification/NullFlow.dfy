/** Which functions never return null: the flow walk over one body, and what running the
    body can return. */
module NullFlow {
  import opened Options

  datatype Expr =
    | Null
    | Fresh                             // an allocation, or the address of something
    | Var(x: nat)
    | Cast(checked: bool, e: Expr)      // a checked cast yields null when it fails
    | Invoke(f: nat)
    | Deref(e: Expr)
    | Opaque                            // anything else

  datatype Cond = IsNull(x: nat) | NotNull(x: nat) | Other

  datatype Stmt =
    | Let(x: nat, init: Expr)
    | Set(x: nat, value: Expr)
    | Return(result: Option<Expr>)
    | If(cond: Cond, thn: seq<Stmt>, els: Else)
    | While(cond: Cond, body: seq<Stmt>)
    | Nested(body: seq<Stmt>)
    | Effect                            // an expression statement, or a store elsewhere

  /** A function body; `sure[x]`: local `x` is a parameter whose type excludes null. */
  datatype Fn = Fn(sure: seq<bool>, body: seq<Stmt>)

  /** `certain[f]`: the return type of `f` excludes null, or `f` is one of the runtime's
      string builders. */
  datatype Program = Program(certain: seq<bool>, bodies: map<nat, Fn>)

  datatype Else = NoElse | Else(b: seq<Stmt>)

  type Nulls = seq<bool>                // per local: known, or found, not to be null

  const TOP: nat := 0xFFFF_FFFF

  predicate IsStringBuiltin(f: nat) {
    || f == TOP - 5 || TOP - 14 <= f <= TOP - 8 || f == TOP - 59
  }

  function At(s: seq<bool>, i: nat): bool {
    i < |s| && s[i]
  }

  function Put(s: seq<bool>, i: nat, b: bool): (r: seq<bool>)
    ensures |r| == |s|
  {
    if i < |s| then s[i := b] else s
  }

  // -------------------------------------------------------------------- the flow walk

  /** Is the value of `e` known not to be null? */
  predicate Flow(e: Expr, state: Nulls, sums: seq<bool>) {
    match e
    case Fresh => true
    case Var(x) => At(state, x)
    case Cast(checked, inner) => !checked && Flow(inner, state, sums)
    case Invoke(f) => IsStringBuiltin(f) || At(sums, f)
    case Deref(inner) => Flow(inner, state, sums)
    case _ => false
  }

  /** `Bad`: some return seen may give null. */
  datatype Walk = Bad | Ok(state: Nulls, terminates: bool, any: bool)

  function Narrowed(cond: Cond, state: Nulls, taken: bool): Nulls {
    match cond
    case NotNull(x) => if taken then Put(state, x, true) else state
    case IsNull(x) => if taken then state else Put(state, x, true)
    case Other => state
  }

  function Meet(a: Nulls, b: Nulls): (r: Nulls)
    requires |a| == |b|
    ensures |r| == |a| && forall i | 0 <= i < |a| :: r[i] == (a[i] && b[i])
  {
    seq(|a|, i requires 0 <= i < |a| => a[i] && b[i])
  }

  function JoinBranches(before: Nulls, t: Walk, e: Walk, hasElse: bool): Walk
    requires t.Ok? && e.Ok? && |t.state| == |e.state| == |before|
  {
    var state :=
      if t.terminates && e.terminates then before
      else if t.terminates then e.state
      else if e.terminates then t.state
      else Meet(t.state, e.state);
    Ok(state, hasElse && t.terminates && e.terminates, e.any)
  }

  function StmtWalk(s: Stmt, state: Nulls, sums: seq<bool>, any: bool): (r: Walk)
    ensures r.Ok? ==> |r.state| == |state|
    decreases s, 0
  {
    match s
    case Let(x, e) => Ok(Put(state, x, Flow(e, state, sums)), false, any)
    case Set(x, e) => Ok(Put(state, x, Flow(e, state, sums)), false, any)
    case Return(v) => if v.Some? && !Flow(v.value, state, sums) then Bad else Ok(state, true, true)
    case If(cond, thn, els) =>
      var t := BlockWalk(thn, Narrowed(cond, state, true), sums, any);
      if t.Bad? then Bad
      else
        var elseIn := Narrowed(cond, state, false);
        var e := if els.Else? then BlockWalk(els.b, elseIn, sums, t.any) else Ok(elseIn, false, t.any);
        if e.Bad? then Bad else JoinBranches(state, t, e, els.Else?)
    case While(_, body) =>
      var b := BlockWalk(body, state, sums, any);
      if b.Bad? then Bad else Ok(Meet(state, b.state), false, b.any)
    case Nested(body) => BlockWalk(body, state, sums, any)
    case Effect => Ok(state, false, any)
  }

  function BlockWalk(b: seq<Stmt>, state: Nulls, sums: seq<bool>, any: bool): (r: Walk)
    ensures r.Ok? ==> |r.state| == |state|
    decreases b
  {
    if |b| == 0 then Ok(state, false, any)
    else
      var r := StmtWalk(b[0], state, sums, any);
      if r.Bad? || r.terminates then r else BlockWalk(b[1..], r.state, sums, r.any)
  }

  /** `function_returns_nonnull`. */
  predicate Accepts(fn: Fn, sums: seq<bool>) {
    var r := BlockWalk(fn.body, fn.sure, sums, false);
    r.Ok? && r.any
  }

  // ---------------------------------------------------------------------- running it

  /** The choices one run makes, as a tree: values nobody knows, the locals a called body
      starts with and its run, the way each condition goes. */
  datatype Tree =
    | Bit(b: bool)
    | Call(entry: Nulls, run: seq<Tree>)
    | Branch(taken: bool, run: seq<Tree>)
    | Loop(rounds: seq<Tree>)

  datatype Outcome = Stuck | Falls(env: Nulls) | Returned(given: Option<bool>)

  predicate Below(state: Nulls, env: Nulls) {
    |state| == |env| && forall i | 0 <= i < |state| :: state[i] ==> env[i]
  }

  predicate Sure(p: Program, f: nat) {
    IsStringBuiltin(f) || At(p.certain, f)
  }

  /** The value of an expression: does it differ from null?  None when the tree does not
      fit. */
  function Eval(p: Program, e: Expr, env: Nulls, t: Tree): Option<bool>
    decreases t, 0, e
  {
    match e
    case Null => Some(false)
    case Fresh => Some(true)
    case Var(x) => Some(At(env, x))
    case Cast(checked, inner) => if checked then AnyBit(t) else Eval(p, inner, env, t)
    case Invoke(f) =>
      if Sure(p, f) then Some(true)
      else if f !in p.bodies then AnyBit(t)
      else if t.Call? && Below(p.bodies[f].sure, t.entry) then
        (match RunBlock(p, p.bodies[f].body, t.entry, t.run)
         case Returned(v) => v
         case _ => None)
      else None
    case Deref(_) => AnyBit(t)
    case Opaque => AnyBit(t)
  }

  function AnyBit(t: Tree): Option<bool> {
    if t.Bit? then Some(t.b) else None
  }

  predicate GoesWay(cond: Cond, env: Nulls, taken: bool) {
    match cond
    case NotNull(x) => taken == At(env, x)
    case IsNull(x) => taken == !At(env, x)
    case Other => true
  }

  function RunStmt(p: Program, s: Stmt, env: Nulls, t: Tree): Outcome
    decreases t, 1, s
  {
    match s
    case Let(x, e) => Stored(Eval(p, e, env, t), x, env)
    case Set(x, e) => Stored(Eval(p, e, env, t), x, env)
    case Return(v) =>
      if v.None? then Returned(None)
      else
        (match Eval(p, v.value, env, t)
         case None => Stuck
         case Some(b) => Returned(Some(b)))
    case If(cond, thn, els) =>
      if !t.Branch? || !GoesWay(cond, env, t.taken) then Stuck
      else RunBlock(p, if t.taken then thn else if els.Else? then els.b else [], env, t.run)
    case While(cond, body) => if t.Loop? then RunLoop(p, cond, body, env, t.rounds) else Stuck
    case Nested(body) => if t.Branch? then RunBlock(p, body, env, t.run) else Stuck
    case Effect => Falls(env)
  }

  function Stored(v: Option<bool>, x: nat, env: Nulls): Outcome {
    match v case None => Stuck case Some(b) => Falls(Put(env, x, b))
  }

  function RunBlock(p: Program, b: seq<Stmt>, env: Nulls, ts: seq<Tree>): Outcome
    decreases ts, 1, b
  {
    if |b| == 0 then Falls(env)
    else if |ts| == 0 then Stuck
    else match RunStmt(p, b[0], env, ts[0])
      case Falls(next) => RunBlock(p, b[1..], next, ts[1..])
      case stop => stop
  }

  function RunLoop(p: Program, cond: Cond, body: seq<Stmt>, env: Nulls, rounds: seq<Tree>): Outcome
    decreases rounds, 1, body
  {
    if |rounds| == 0 || !rounds[0].Branch? || !GoesWay(cond, env, rounds[0].taken) then Stuck
    else if !rounds[0].taken then Falls(env)
    else match RunBlock(p, body, env, rounds[0].run)
      case Falls(next) => RunLoop(p, cond, body, next, rounds[1..])
      case stop => stop
  }

  /** Some terminating call of `f` returns a value that is, or is not, null. */
  ghost predicate CanReturn(p: Program, f: nat, nonNull: bool) {
    exists t: Tree :: Eval(p, Invoke(f), [], t) == Some(nonNull)
  }

  // -------------------------------------------------------- the part that is claimed

  predicate PlainExpr(e: Expr) {
    match e
    case Deref(_) => false
    case Cast(_, inner) => PlainExpr(inner)
    case _ => true
  }

  predicate Leq(a: seq<bool>, b: seq<bool>) {
    |a| == |b| && forall i | 0 <= i < |a| :: a[i] ==> b[i]
  }

  /** No reading through a reference, and where the walk comes to a loop, one walk of its
      body forgets nothing it was entered with. */
  predicate PlainStmt(s: Stmt, state: Nulls, sums: seq<bool>, any: bool)
    decreases s, 0
  {
    match s
    case Let(_, e) => PlainExpr(e)
    case Set(_, e) => PlainExpr(e)
    case Return(v) => v.Some? ==> PlainExpr(v.value)
    case If(cond, thn, els) =>
      var t := BlockWalk(thn, Narrowed(cond, state, true), sums, any);
      PlainBlock(thn, Narrowed(cond, state, true), sums, any) &&
      (els.Else? && t.Ok? ==> PlainBlock(els.b, Narrowed(cond, state, false), sums, t.any))
    case While(_, body) =>
      var b := BlockWalk(body, state, sums, any);
      PlainBlock(body, state, sums, any) && (b.Ok? && !b.terminates ==> Leq(state, b.state))
    case Nested(body) => PlainBlock(body, state, sums, any)
    case Effect => true
  }

  predicate PlainBlock(b: seq<Stmt>, state: Nulls, sums: seq<bool>, any: bool)
    decreases b
  {
    |b| == 0 ||
    (PlainStmt(b[0], state, sums, any) &&
     var r := StmtWalk(b[0], state, sums, any);
     r.Ok? && !r.terminates ==> PlainBlock(b[1..], r.state, sums, r.any))
  }

  /** Plain under the summaries `sums`; a program without loops and dereferences is. */
  predicate PlainProgram(p: Program, sums: seq<bool>) {
    forall f | f in p.bodies :: PlainBlock(p.bodies[f].body, p.bodies[f].sure, sums, false)
  }

  predicate LoopFree(s: Stmt)
    decreases s, 0
  {
    match s
    case Let(_, e) => PlainExpr(e)
    case Set(_, e) => PlainExpr(e)
    case Return(v) => v.Some? ==> PlainExpr(v.value)
    case If(_, thn, els) => LoopFreeBlock(thn) && (els.Else? ==> LoopFreeBlock(els.b))
    case While(_, _) => false
    case Nested(body) => LoopFreeBlock(body)
    case Effect => true
  }

  predicate LoopFreeBlock(b: seq<Stmt>)
    decreases b
  {
    |b| == 0 || (LoopFree(b[0]) && LoopFreeBlock(b[1..]))
  }

  /** Without loops and dereferences a body is plain under any summaries. */
  lemma {:induction false} LoopFreeIsPlain(b: seq<Stmt>, state: Nulls, sums: seq<bool>, any: bool)
    requires LoopFreeBlock(b)
    ensures PlainBlock(b, state, sums, any)
    decreases b, 0
  {
    if |b| > 0 {
      match b[0] {
        case If(cond, thn, els) =>
          var t := BlockWalk(thn, Narrowed(cond, state, true), sums, any);
          LoopFreeIsPlain(thn, Narrowed(cond, state, true), sums, any);
          if els.Else? && t.Ok? { LoopFreeIsPlain(els.b, Narrowed(cond, state, false), sums, t.any); }
        case Nested(body) => LoopFreeIsPlain(body, state, sums, any);
        case _ =>
      }
      var r := StmtWalk(b[0], state, sums, any);
      if r.Ok? && !r.terminates { LoopFreeIsPlain(b[1..], r.state, sums, r.any); }
    }
  }
}
