/** The runs of an annotated body.  Conditions are free: a run is driven by a
    list of booleans, one for each time an `if` or `while` condition is decided.
    A run that uses up the list is `Pending`, so every prefix of every run,
    finite or not, is covered. */
module Paths {
  import opened Options
  import opened Hir
  import opened Ownership

  datatype Flow = Falls | Returned | Broke | Continued | Pending

  datatype Path = Path(events: seq<Event>, flow: Flow, rest: seq<bool>)

  /** Arguments are evaluated left to right, then handed over at the call. */
  function CallEvents(args: seq<Expr>): seq<Event>
    decreases args, 1
  {
    ArgEvents(args) + Handover(args)
  }

  function ArgEvents(args: seq<Expr>): seq<Event>
    decreases args, 0
  {
    if |args| == 0 then [] else EvalEvents(args[0]) + ArgEvents(args[1..])
  }

  function Handover(args: seq<Expr>): seq<Event> {
    if |args| == 0 then []
    else (if args[0].Use? then [GiveAway(args[0].x)] else []) + Handover(args[1..])
  }

  function EvalEvents(e: Expr): seq<Event>
    decreases e
  {
    match e
    case Lit => []
    case Use(x) => [Read(x)]
    case Borrow(x) => [Read(x)]
    case Call(owns, args) => CallEvents(args) + (if owns then [Temp] else [])
  }

  /** Evaluate `e`, then store its value in the owning local `x`. */
  function BindEvents(x: Local, e: Expr): seq<Event> {
    match e
    case Use(y) => [Read(y), Hand(y, x)]
    case Call(true, args) => CallEvents(args) + [Fresh(x)]
    case _ => EvalEvents(e)
  }

  function DropEvents(xs: seq<Local>): seq<Event> {
    seq(|xs|, i requires 0 <= i < |xs| => Drop(xs[i]))
  }

  /** Drop-on-reassign: when the right-hand side does not mention the target the
      old value goes first, otherwise the new value is computed first. */
  function AssignEvents(x: Local, e: Expr, dropOld: bool): seq<Event> {
    var prior := if dropOld then [Drop(x)] else [];
    if !Mentions(e, x) then prior + BindEvents(x, e)
    else match e
      case Use(y) => [Read(y)] + prior + [Hand(y, x)]
      case Call(true, args) => CallEvents(args) + prior + [Fresh(x)]
      case _ => EvalEvents(e) + prior
  }

  function ReturnEvents(e: Option<Expr>, drops: seq<Local>): seq<Event> {
    (match e
     case None => []
     case Some(Use(x)) => [Read(x), GiveAway(x)]
     case Some(v) => EvalEvents(v)) + DropEvents(drops)
  }

  /** Events of a statement without control flow of its own. */
  function SimpleEvents(s: Stmt): seq<Event>
    requires s.Let? || s.Assign? || s.Do? || s.Return? || s.Break? || s.Continue?
  {
    match s
    case Let(x, e) => BindEvents(x, e)
    case Assign(x, e, dropOld) => AssignEvents(x, e, dropOld)
    case Do(e) => EvalEvents(e)
    case Return(e, drops) => ReturnEvents(e, drops)
    case Break(drops) => DropEvents(drops)
    case Continue(drops) => DropEvents(drops)
  }

  function Prefixed(es: seq<Event>, p: Path): (r: Path)
    ensures r.flow == p.flow && r.rest == p.rest
  {
    Path(es + p.events, p.flow, p.rest)
  }

  function RunStmt(s: Stmt, ch: seq<bool>): (p: Path)
    ensures |p.rest| <= |ch|
    decreases |ch|, s
  {
    match s
    case Return(_, _) => Path(SimpleEvents(s), Returned, ch)
    case Break(_) => Path(SimpleEvents(s), Broke, ch)
    case Continue(_) => Path(SimpleEvents(s), Continued, ch)
    case If(c, thn, els) =>
      if |ch| == 0 then Path(EvalEvents(c), Pending, ch)
      else if ch[0] then Prefixed(EvalEvents(c), RunBlock(thn, ch[1..]))
      else (match els
            case None => Path(EvalEvents(c), Falls, ch[1..])
            case Some(b) => Prefixed(EvalEvents(c), RunBlock(b, ch[1..])))
    case While(c, body) => RunLoop(c, body, ch)
    case Nested(b) => RunBlock(b, ch)
    case _ => Path(SimpleEvents(s), Falls, ch)
  }

  /** Decide the condition, run the body, start over. */
  function RunLoop(c: Expr, body: Block, ch: seq<bool>): (p: Path)
    ensures |p.rest| <= |ch|
    decreases |ch|, body, 1
  {
    if |ch| == 0 then Path(EvalEvents(c), Pending, ch)
    else if !ch[0] then Path(EvalEvents(c), Falls, ch[1..])
    else
      var once := RunBlock(body, ch[1..]);
      var done := EvalEvents(c) + once.events;
      if once.flow.Falls? || once.flow.Continued? then Prefixed(done, RunLoop(c, body, once.rest))
      else Path(done, if once.flow.Broke? then Falls else once.flow, once.rest)
  }

  function RunStmts(ss: seq<Stmt>, ch: seq<bool>): (p: Path)
    ensures |p.rest| <= |ch|
    decreases |ch|, ss
  {
    if |ss| == 0 then Path([], Falls, ch)
    else
      var first := RunStmt(ss[0], ch);
      if first.flow != Falls then first
      else Prefixed(first.events, RunStmts(ss[1..], first.rest))
  }

  /** A block runs its statements and, when control falls off its end, frees
      `heapToFree` in order. */
  function RunBlock(b: Block, ch: seq<bool>): (p: Path)
    ensures |p.rest| <= |ch|
    decreases |ch|, b
  {
    var p := RunStmts(b.stmts, ch);
    if p.flow == Falls then Path(p.events + DropEvents(b.heapToFree), Falls, p.rest) else p
  }
}
