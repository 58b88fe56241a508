/** A static check of an annotated body: which locals own a value at every point,
    and do the drop lists agree?  It looks at each statement once, whatever the
    number of paths, and it is exact: it passes if and only if every run follows
    the ownership discipline and ends owning nothing. */
module Audit {
  import opened Options
  import opened Hir
  import opened Ownership
  import opened Paths

  datatype Verdict = Reject | FallsWith(own: set<Local>) | Exits

  function FromFollow(r: Option<set<Local>>): Verdict {
    match r case None => Reject case Some(own) => FallsWith(own)
  }

  /** Both arms must leave the same locals owning. */
  function Join(a: Verdict, b: Verdict): Verdict {
    if a.Reject? || b.Reject? then Reject
    else if a.Exits? then b
    else if b.Exits? || a == b then a
    else Reject
  }

  /** `brk`/`cnt`: what must be owned at a break/continue of the enclosing loop. */
  function AuditStmt(s: Stmt, own: set<Local>, brk: Option<set<Local>>, cnt: Option<set<Local>>): Verdict {
    match s
    case Return(_, _) =>
      if Follow(own, SimpleEvents(s)) == Some({}) then Exits else Reject
    case Break(_) =>
      if brk.Some? && Follow(own, SimpleEvents(s)) == brk then Exits else Reject
    case Continue(_) =>
      if cnt.Some? && Follow(own, SimpleEvents(s)) == cnt then Exits else Reject
    case If(c, thn, els) =>
      (match Follow(own, EvalEvents(c))
       case None => Reject
       case Some(decided) =>
         Join(AuditBlock(thn, decided, brk, cnt),
              match els
              case None => FallsWith(decided)
              case Some(b) => AuditBlock(b, decided, brk, cnt)))
    case While(c, body) =>
      (match Follow(own, EvalEvents(c))
       case None => Reject
       case Some(decided) =>
         match AuditBlock(body, decided, Some(decided), Some(own))
         case Reject => Reject
         case Exits => FallsWith(decided)
         case FallsWith(end) => if end == own then FallsWith(decided) else Reject)
    case Nested(b) => AuditBlock(b, own, brk, cnt)
    case _ => FromFollow(Follow(own, SimpleEvents(s)))
  }

  function AuditStmts(ss: seq<Stmt>, own: set<Local>, brk: Option<set<Local>>, cnt: Option<set<Local>>): Verdict {
    if |ss| == 0 then FallsWith(own)
    else match AuditStmt(ss[0], own, brk, cnt)
      case Reject => Reject
      case Exits => Exits
      case FallsWith(next) => AuditStmts(ss[1..], next, brk, cnt)
  }

  function AuditBlock(b: Block, own: set<Local>, brk: Option<set<Local>>, cnt: Option<set<Local>>): Verdict {
    match AuditStmts(b.stmts, own, brk, cnt)
    case Reject => Reject
    case Exits => Exits
    case FallsWith(end) => FromFollow(Follow(end, DropEvents(b.heapToFree)))
  }

  /** A whole function body: it starts owning nothing and must end owning nothing. */
  predicate Passes(body: Block) {
    var v := AuditBlock(body, {}, None, None);
    v.Exits? || v == FallsWith({})
  }

  // ------------------------------------------------------------------ meaning

  /** A run piece started with `own` never breaks the discipline, and whichever
      way control leaves it, exactly the locals expected there own a value. */
  predicate Respects(p: Path, own: set<Local>, post: Option<set<Local>>,
                     brk: Option<set<Local>>, cnt: Option<set<Local>>) {
    match Follow(own, p.events)
    case None => false
    case Some(end) =>
      match p.flow
      case Pending => true
      case Returned => end == {}
      case Broke => brk == Some(end)
      case Continued => cnt == Some(end)
      case Falls => post == Some(end)
  }

  function Post(v: Verdict): Option<set<Local>> {
    if v.FallsWith? then Some(v.own) else None
  }

  /** Every run of the body follows the discipline and ends owning nothing. */
  ghost predicate Disciplined(body: Block) {
    forall ch: seq<bool> :: Respects(RunBlock(body, ch), {}, Some({}), None, None)
  }

  // ---------------------------------------------------------------- soundness

  lemma RespectsPrefixed(es: seq<Event>, p: Path, own: set<Local>, mid: set<Local>,
                         post: Option<set<Local>>, brk: Option<set<Local>>, cnt: Option<set<Local>>)
    requires Follow(own, es) == Some(mid)
    ensures Respects(Prefixed(es, p), own, post, brk, cnt) == Respects(p, mid, post, brk, cnt)
  {
    FollowConcat(own, es, p.events);
  }

  lemma {:induction false} SoundStmt(s: Stmt, ch: seq<bool>, own: set<Local>,
                                     brk: Option<set<Local>>, cnt: Option<set<Local>>)
    requires !AuditStmt(s, own, brk, cnt).Reject?
    ensures Respects(RunStmt(s, ch), own, Post(AuditStmt(s, own, brk, cnt)), brk, cnt)
    decreases |ch|, s
  {
    var v := AuditStmt(s, own, brk, cnt);
    match s
    case If(c, thn, els) =>
      var decided := Follow(own, EvalEvents(c)).value;
      if |ch| > 0 {
        if ch[0] {
          SoundBlock(thn, ch[1..], decided, brk, cnt);
          RespectsPrefixed(EvalEvents(c), RunBlock(thn, ch[1..]), own, decided, Post(v), brk, cnt);
        } else if els.Some? {
          SoundBlock(els.value, ch[1..], decided, brk, cnt);
          RespectsPrefixed(EvalEvents(c), RunBlock(els.value, ch[1..]), own, decided, Post(v), brk, cnt);
        }
      }
    case While(c, body) =>
      SoundLoop(c, body, ch, own, Follow(own, EvalEvents(c)).value, brk, cnt);
    case Nested(b) =>
      SoundBlock(b, ch, own, brk, cnt);
    case _ =>
  }

  lemma {:induction false} SoundLoop(c: Expr, body: Block, ch: seq<bool>, own: set<Local>, decided: set<Local>,
                                     brk: Option<set<Local>>, cnt: Option<set<Local>>)
    requires Follow(own, EvalEvents(c)) == Some(decided)
    requires var v := AuditBlock(body, decided, Some(decided), Some(own));
             v.Exits? || v == FallsWith(own)
    ensures Respects(RunLoop(c, body, ch), own, Some(decided), brk, cnt)
    decreases |ch|, body, 1
  {
    if |ch| > 0 && ch[0] {
      var once := RunBlock(body, ch[1..]);
      SoundBlock(body, ch[1..], decided, Some(decided), Some(own));
      FollowConcat(own, EvalEvents(c), once.events);
      if once.flow.Falls? || once.flow.Continued? {
        SoundLoop(c, body, once.rest, own, decided, brk, cnt);
        RespectsPrefixed(EvalEvents(c) + once.events, RunLoop(c, body, once.rest), own, own,
                         Some(decided), brk, cnt);
      }
    }
  }

  lemma {:induction false} SoundStmts(ss: seq<Stmt>, ch: seq<bool>, own: set<Local>,
                                      brk: Option<set<Local>>, cnt: Option<set<Local>>)
    requires !AuditStmts(ss, own, brk, cnt).Reject?
    ensures Respects(RunStmts(ss, ch), own, Post(AuditStmts(ss, own, brk, cnt)), brk, cnt)
    decreases |ch|, ss
  {
    if |ss| > 0 {
      SoundStmt(ss[0], ch, own, brk, cnt);
      var first := RunStmt(ss[0], ch);
      if first.flow.Falls? {
        var next := AuditStmt(ss[0], own, brk, cnt).own;
        SoundStmts(ss[1..], first.rest, next, brk, cnt);
        RespectsPrefixed(first.events, RunStmts(ss[1..], first.rest), own, next,
                         Post(AuditStmts(ss, own, brk, cnt)), brk, cnt);
      }
    }
  }

  lemma {:induction false} SoundBlock(b: Block, ch: seq<bool>, own: set<Local>,
                                      brk: Option<set<Local>>, cnt: Option<set<Local>>)
    requires !AuditBlock(b, own, brk, cnt).Reject?
    ensures Respects(RunBlock(b, ch), own, Post(AuditBlock(b, own, brk, cnt)), brk, cnt)
    decreases |ch|, b
  {
    SoundStmts(b.stmts, ch, own, brk, cnt);
    var p := RunStmts(b.stmts, ch);
    FollowConcat(own, p.events, DropEvents(b.heapToFree));
  }

  // ------------------------------------------------------------- completeness

  /** The run `p` on `ch` used up `used` and would go the same way whatever came
      after that. */
  ghost predicate Framed(p: Path, again: Path, ch: seq<bool>, used: seq<bool>, other: seq<bool>) {
    ch == used + p.rest && again == Path(p.events, p.flow, other)
  }

  lemma Assoc(a: seq<bool>, b: seq<bool>, c: seq<bool>)
    ensures a + b + c == a + (b + c)
  {
  }

  lemma Tail(b: bool, xs: seq<bool>)
    ensures ([b] + xs)[0] == b && ([b] + xs)[1..] == xs
  {
  }

  /** Choices a finished piece did not look at do not matter to it. */
  lemma {:induction false} FrameStmt(s: Stmt, ch: seq<bool>, other: seq<bool>) returns (used: seq<bool>)
    requires RunStmt(s, ch).flow != Pending
    ensures Framed(RunStmt(s, ch), RunStmt(s, used + other), ch, used, other)
    decreases |ch|, s
  {
    match s
    case If(c, thn, els) => used := FrameIf(s, ch, other);
    case While(c, body) => used := FrameLoop(c, body, ch, other);
    case Nested(b) => used := FrameBlock(b, ch, other);
    case _ =>
      used := [];
      assert [] + other == other && [] + ch == ch;
  }

  lemma {:induction false} FrameIf(s: Stmt, ch: seq<bool>, other: seq<bool>) returns (used: seq<bool>)
    requires s.If? && RunStmt(s, ch).flow != Pending
    ensures Framed(RunStmt(s, ch), RunStmt(s, used + other), ch, used, other)
    decreases |ch|, s, 0
  {
    var inner: seq<bool> := [];
    if ch[0] {
      inner := FrameBlock(s.thn, ch[1..], other);
    } else if s.els.Some? {
      inner := FrameBlock(s.els.value, ch[1..], other);
    } else {
      assert [] + other == other && [] + ch[1..] == ch[1..];
    }
    used := [ch[0]] + inner;
    Assoc([ch[0]], inner, other);
    Tail(ch[0], inner + other);
    assert ch == [ch[0]] + ch[1..];
  }

  lemma {:induction false} FrameLoop(c: Expr, body: Block, ch: seq<bool>, other: seq<bool>) returns (used: seq<bool>)
    requires RunLoop(c, body, ch).flow != Pending
    ensures Framed(RunLoop(c, body, ch), RunLoop(c, body, used + other), ch, used, other)
    decreases |ch|, body, 1
  {
    assert ch == [ch[0]] + ch[1..];
    if !ch[0] {
      used := [false];
      Tail(false, other);
    } else {
      var once := RunBlock(body, ch[1..]);
      if once.flow.Falls? || once.flow.Continued? {
        var later := FrameLoop(c, body, once.rest, other);
        var first := FrameBlock(body, ch[1..], later + other);
        used := [true] + first + later;
        TripChoices(first, later, other);
        TripChoices(first, later, RunLoop(c, body, once.rest).rest);
        OneTrip(c, body, used + other, once, later + other);
      } else {
        var inner := FrameBlock(body, ch[1..], other);
        used := [true] + inner;
        Assoc([true], inner, other);
        Tail(true, inner + other);
      }
    }
  }

  lemma TripChoices(first: seq<bool>, later: seq<bool>, other: seq<bool>)
    ensures [true] + first + later + other == [true] + (first + (later + other))
    ensures ([true] + first + later + other)[0]
    ensures ([true] + first + later + other)[1..] == first + (later + other)
  {
  }

  lemma OneTrip(c: Expr, body: Block, ch: seq<bool>, once: Path, tail: seq<bool>)
    requires |ch| > 0 && ch[0] && RunBlock(body, ch[1..]) == Path(once.events, once.flow, tail)
    requires once.flow.Falls? || once.flow.Continued?
    requires |tail| <= |ch|
    ensures RunLoop(c, body, ch) == Prefixed(EvalEvents(c) + once.events, RunLoop(c, body, tail))
  {
  }

  lemma {:induction false} FrameStmts(ss: seq<Stmt>, ch: seq<bool>, other: seq<bool>) returns (used: seq<bool>)
    requires RunStmts(ss, ch).flow != Pending
    ensures Framed(RunStmts(ss, ch), RunStmts(ss, used + other), ch, used, other)
    decreases |ch|, ss
  {
    if |ss| == 0 {
      used := [];
      assert [] + other == other && [] + ch == ch;
    } else {
      var first := RunStmt(ss[0], ch);
      if first.flow.Falls? {
        var later := FrameStmts(ss[1..], first.rest, other);
        var head := FrameStmt(ss[0], ch, later + other);
        used := head + later;
        Assoc(head, later, other);
        Assoc(head, later, RunStmts(ss[1..], first.rest).rest);
      } else {
        used := FrameStmt(ss[0], ch, other);
      }
    }
  }

  lemma {:induction false} FrameBlock(b: Block, ch: seq<bool>, other: seq<bool>) returns (used: seq<bool>)
    requires RunBlock(b, ch).flow != Pending
    ensures Framed(RunBlock(b, ch), RunBlock(b, used + other), ch, used, other)
    decreases |ch|, b
  {
    used := FrameStmts(b.stmts, ch, other);
  }

  /** Every piece can be brought to an end: decide every condition to false. */
  lemma {:induction false} FinishStmt(s: Stmt) returns (ch: seq<bool>)
    ensures RunStmt(s, ch).flow != Pending
    decreases s
  {
    ch := [false];
    match s
    case If(_, _, els) =>
      if els.Some? {
        var inner := FinishBlock(els.value);
        ch := [false] + inner;
      }
    case Nested(b) => ch := FinishBlock(b);
    case _ =>
  }

  lemma {:induction false} FinishStmts(ss: seq<Stmt>) returns (ch: seq<bool>)
    ensures RunStmts(ss, ch).flow != Pending
    decreases ss
  {
    ch := [];
    if |ss| > 0 {
      var head := FinishStmt(ss[0]);
      var tail := FinishStmts(ss[1..]);
      var used := FrameStmt(ss[0], head, tail);
      ch := used + tail;
    }
  }

  lemma {:induction false} FinishBlock(b: Block) returns (ch: seq<bool>)
    ensures RunBlock(b, ch).flow != Pending
    decreases b
  {
    ch := FinishStmts(b.stmts);
  }

  /** The audit agrees with what every finished run of the piece does. */
  predicate Agrees(v: Verdict, post: Option<set<Local>>) {
    !v.Reject? && (v.FallsWith? ==> post == Some(v.own))
  }

  predicate Ends(p: Path, own: set<Local>, post: Option<set<Local>>,
                 brk: Option<set<Local>>, cnt: Option<set<Local>>) {
    p.flow.Pending? || Respects(p, own, post, brk, cnt)
  }

  lemma {:induction false} CompleteStmt(s: Stmt, own: set<Local>, post: Option<set<Local>>,
                                        brk: Option<set<Local>>, cnt: Option<set<Local>>)
    requires forall ch :: Ends(RunStmt(s, ch), own, post, brk, cnt)
    ensures Agrees(AuditStmt(s, own, brk, cnt), post)
    decreases s
  {
    match s
    case If(c, thn, els) => CompleteIf(s, own, post, brk, cnt);
    case While(c, body) =>
      forall ch ensures Ends(RunLoop(c, body, ch), own, post, brk, cnt) {
        assert Ends(RunStmt(s, ch), own, post, brk, cnt);
      }
      CompleteLoop(c, body, own, post, brk, cnt);
    case Nested(b) =>
      forall ch ensures Ends(RunBlock(b, ch), own, post, brk, cnt) {
        assert Ends(RunStmt(s, ch), own, post, brk, cnt);
      }
      CompleteBlock(b, own, post, brk, cnt);
    case _ =>
      assert Ends(RunStmt(s, []), own, post, brk, cnt);
  }

  lemma {:induction false} CompleteIf(s: Stmt, own: set<Local>, post: Option<set<Local>>,
                                      brk: Option<set<Local>>, cnt: Option<set<Local>>)
    requires s.If? && forall ch :: Ends(RunStmt(s, ch), own, post, brk, cnt)
    ensures Agrees(AuditStmt(s, own, brk, cnt), post)
    decreases s, 0
  {
    var c := EvalEvents(s.cond);
    var inner := FinishBlock(s.thn);
    Tail(true, inner);
    assert Ends(RunStmt(s, [true] + inner), own, post, brk, cnt);
    FollowConcat(own, c, RunBlock(s.thn, inner).events);
    var decided := Follow(own, c).value;
    forall ch ensures Ends(RunBlock(s.thn, ch), decided, post, brk, cnt) {
      Tail(true, ch);
      assert Ends(RunStmt(s, [true] + ch), own, post, brk, cnt);
      RespectsPrefixed(c, RunBlock(s.thn, ch), own, decided, post, brk, cnt);
    }
    CompleteBlock(s.thn, decided, post, brk, cnt);
    if s.els.Some? {
      forall ch ensures Ends(RunBlock(s.els.value, ch), decided, post, brk, cnt) {
        Tail(false, ch);
        assert Ends(RunStmt(s, [false] + ch), own, post, brk, cnt);
        RespectsPrefixed(c, RunBlock(s.els.value, ch), own, decided, post, brk, cnt);
      }
      CompleteBlock(s.els.value, decided, post, brk, cnt);
    } else {
      assert Ends(RunStmt(s, [false]), own, post, brk, cnt);
    }
  }

  lemma {:induction false} CompleteLoop(c: Expr, body: Block, own: set<Local>, post: Option<set<Local>>,
                                        brk: Option<set<Local>>, cnt: Option<set<Local>>)
    requires forall ch :: Ends(RunLoop(c, body, ch), own, post, brk, cnt)
    ensures Agrees(AuditStmt(While(c, body), own, brk, cnt), post)
    decreases body, 1
  {
    assert Ends(RunLoop(c, body, [false]), own, post, brk, cnt);
    var decided := Follow(own, EvalEvents(c)).value;
    forall ch ensures Ends(RunBlock(body, ch), decided, Some(own), Some(decided), Some(own)) {
      if RunBlock(body, ch).flow != Pending {
        OneIteration(c, body, ch, own, decided, post, brk, cnt);
      }
    }
    CompleteBlock(body, decided, Some(own), Some(decided), Some(own));
  }

  /** One trip round the loop, followed by leaving it, pins down what the body
      must leave behind. */
  lemma OneIteration(c: Expr, body: Block, ch: seq<bool>, own: set<Local>, decided: set<Local>,
                     post: Option<set<Local>>, brk: Option<set<Local>>, cnt: Option<set<Local>>)
    requires Follow(own, EvalEvents(c)) == Some(decided)
    requires post == Some(decided) && RunBlock(body, ch).flow != Pending
    requires forall ch :: Ends(RunLoop(c, body, ch), own, post, brk, cnt)
    ensures Respects(RunBlock(body, ch), decided, Some(own), Some(decided), Some(own))
  {
    var decide := EvalEvents(c);
    var once := RunBlock(body, ch);
    FollowConcat(own, decide, once.events);
    if once.flow.Falls? || once.flow.Continued? {
      AndOut(c, body, ch, own, decided, post, brk, cnt);
    } else {
      Tail(true, ch);
      assert Ends(RunLoop(c, body, [true] + ch), own, post, brk, cnt);
    }
  }

  /** An iteration that comes back, followed by the exit of the loop. */
  lemma AndOut(c: Expr, body: Block, ch: seq<bool>, own: set<Local>, decided: set<Local>,
               post: Option<set<Local>>, brk: Option<set<Local>>, cnt: Option<set<Local>>)
    requires Follow(own, EvalEvents(c)) == Some(decided)
    requires post == Some(decided) && (RunBlock(body, ch).flow.Falls? || RunBlock(body, ch).flow.Continued?)
    requires forall ch :: Ends(RunLoop(c, body, ch), own, post, brk, cnt)
    ensures Follow(decided, RunBlock(body, ch).events) == Some(own)
  {
    var decide := EvalEvents(c);
    var once := RunBlock(body, ch);
    FollowConcat(own, decide, once.events);
    var used := FrameBlock(body, ch, [false]);
    var trip := [true] + (used + [false]);
    Tail(true, used + [false]);
    OneTrip(c, body, trip, once, [false]);
    assert Ends(RunLoop(c, body, trip), own, post, brk, cnt);
    FollowConcat(own, decide + once.events, decide);
    FollowInjective(Follow(decided, once.events).value, own, decide);
  }

  lemma {:induction false} CompleteStmts(ss: seq<Stmt>, own: set<Local>, post: Option<set<Local>>,
                                         brk: Option<set<Local>>, cnt: Option<set<Local>>)
    requires forall ch :: Ends(RunStmts(ss, ch), own, post, brk, cnt)
    ensures Agrees(AuditStmts(ss, own, brk, cnt), post)
    decreases ss
  {
    assert Ends(RunStmts(ss, []), own, post, brk, cnt);
    if |ss| > 0 {
      var next := HeadPost(ss, own, post, brk, cnt);
      CompleteStmt(ss[0], own, next, brk, cnt);
      if AuditStmt(ss[0], own, brk, cnt).FallsWith? {
        var mid := AuditStmt(ss[0], own, brk, cnt).own;
        forall ch ensures Ends(RunStmts(ss[1..], ch), mid, post, brk, cnt) {
          TailEnds(ss, ch, own, mid, post, brk, cnt);
        }
        CompleteStmts(ss[1..], mid, post, brk, cnt);
      }
    }
  }

  /** All runs of the first statement that fall through leave the same locals
      owning: extend two of them by one common completion of the rest. */
  lemma {:induction false} HeadPost(ss: seq<Stmt>, own: set<Local>, post: Option<set<Local>>,
                                    brk: Option<set<Local>>, cnt: Option<set<Local>>)
      returns (next: Option<set<Local>>)
    requires |ss| > 0
    requires forall ch :: Ends(RunStmts(ss, ch), own, post, brk, cnt)
    ensures forall ch :: Ends(RunStmt(ss[0], ch), own, next, brk, cnt)
    ensures next.Some? ==> exists ch :: RunStmt(ss[0], ch).flow.Falls?
  {
    next := None;
    if exists ch0 :: RunStmt(ss[0], ch0).flow.Falls? {
      var ch0 :| RunStmt(ss[0], ch0).flow.Falls?;
      next := Follow(own, RunStmt(ss[0], ch0).events);
      forall ch ensures Ends(RunStmt(ss[0], ch), own, next, brk, cnt) {
        if RunStmt(ss[0], ch).flow.Falls? {
          SameAfterHead(ss, ch0, ch, own, post, brk, cnt);
        } else {
          assert Ends(RunStmts(ss, ch), own, post, brk, cnt);
        }
      }
    } else {
      forall ch ensures Ends(RunStmt(ss[0], ch), own, next, brk, cnt) {
        assert Ends(RunStmts(ss, ch), own, post, brk, cnt);
      }
    }
  }

  lemma SameAfterHead(ss: seq<Stmt>, a: seq<bool>, b: seq<bool>, own: set<Local>, post: Option<set<Local>>,
                      brk: Option<set<Local>>, cnt: Option<set<Local>>)
    requires |ss| > 0
    requires forall ch :: Ends(RunStmts(ss, ch), own, post, brk, cnt)
    requires RunStmt(ss[0], a).flow.Falls? && RunStmt(ss[0], b).flow.Falls?
    ensures Follow(own, RunStmt(ss[0], a).events).Some?
    ensures Follow(own, RunStmt(ss[0], a).events) == Follow(own, RunStmt(ss[0], b).events)
  {
    var tail := FinishStmts(ss[1..]);
    var pa, pb, rest := RunStmt(ss[0], a), RunStmt(ss[0], b), RunStmts(ss[1..], tail);
    var usedA := FrameStmt(ss[0], a, tail);
    var usedB := FrameStmt(ss[0], b, tail);
    assert Ends(RunStmts(ss, usedA + tail), own, post, brk, cnt);
    assert Ends(RunStmts(ss, usedB + tail), own, post, brk, cnt);
    FollowConcat(own, pa.events, rest.events);
    FollowConcat(own, pb.events, rest.events);
    FollowInjective(Follow(own, pa.events).value, Follow(own, pb.events).value, rest.events);
  }

  lemma TailEnds(ss: seq<Stmt>, ch: seq<bool>, own: set<Local>, mid: set<Local>, post: Option<set<Local>>,
                 brk: Option<set<Local>>, cnt: Option<set<Local>>)
    requires |ss| > 0
    requires forall ch :: Ends(RunStmts(ss, ch), own, post, brk, cnt)
    requires exists ch :: RunStmt(ss[0], ch).flow.Falls? && Follow(own, RunStmt(ss[0], ch).events) == Some(mid)
    ensures Ends(RunStmts(ss[1..], ch), mid, post, brk, cnt)
  {
    var head :| RunStmt(ss[0], head).flow.Falls? && Follow(own, RunStmt(ss[0], head).events) == Some(mid);
    var p := RunStmt(ss[0], head);
    var used := FrameStmt(ss[0], head, ch);
    assert Ends(RunStmts(ss, used + ch), own, post, brk, cnt);
    RespectsPrefixed(p.events, RunStmts(ss[1..], ch), own, mid, post, brk, cnt);
  }

  lemma {:induction false} CompleteBlock(b: Block, own: set<Local>, post: Option<set<Local>>,
                                         brk: Option<set<Local>>, cnt: Option<set<Local>>)
    requires forall ch :: Ends(RunBlock(b, ch), own, post, brk, cnt)
    ensures Agrees(AuditBlock(b, own, brk, cnt), post)
    decreases b, 0
  {
    var frees := DropEvents(b.heapToFree);
    var next: Option<set<Local>> := None;
    if exists ch0 :: RunStmts(b.stmts, ch0).flow.Falls? {
      var ch0 :| RunStmts(b.stmts, ch0).flow.Falls?;
      next := Follow(own, RunStmts(b.stmts, ch0).events);
      assert Ends(RunBlock(b, ch0), own, post, brk, cnt);
      FollowConcat(own, RunStmts(b.stmts, ch0).events, frees);
    }
    forall ch ensures Ends(RunStmts(b.stmts, ch), own, next, brk, cnt) {
      assert Ends(RunBlock(b, ch), own, post, brk, cnt);
      var p := RunStmts(b.stmts, ch);
      if p.flow.Falls? {
        FollowConcat(own, p.events, frees);
        FollowInjective(Follow(own, p.events).value, next.value, frees);
      }
    }
    CompleteStmts(b.stmts, own, next, brk, cnt);
  }

  // ------------------------------------------------------------------ theorem

  ghost predicate FinishedRunsDisciplined(body: Block) {
    forall ch: seq<bool> :: Ends(RunBlock(body, ch), {}, Some({}), None, None)
  }

  /** The audit is exact: nothing it accepts can go wrong, and everything it
      rejects has a run that comes to an end and goes wrong. */
  lemma AuditIsExact(body: Block)
    ensures Passes(body) <==> Disciplined(body)
    ensures Passes(body) <==> FinishedRunsDisciplined(body)
  {
    if Passes(body) {
      forall ch ensures Respects(RunBlock(body, ch), {}, Some({}), None, None) {
        SoundBlock(body, ch, {}, None, None);
      }
    }
    if FinishedRunsDisciplined(body) {
      CompleteBlock(body, {}, Some({}), None, None);
    }
    if Disciplined(body) {
      forall ch ensures Ends(RunBlock(body, ch), {}, Some({}), None, None) {
        assert Respects(RunBlock(body, ch), {}, Some({}), None, None);
      }
    }
  }
}
