/** The flow walk as it runs, updating one table of locals in place. */
module NullWalker {
  import opened Options
  import opened NullFlow

  class Walker {
    const sums: seq<bool>
    var state: Nulls
    /** Has a return been seen? */
    var any: bool

    constructor (sums: seq<bool>, state: Nulls)
      ensures this.sums == sums && this.state == state && !any
    {
      this.sums, this.state, any := sums, state, false;
    }

    /** The walk `w` came out this way, and left the table as it is now. */
    predicate Left(w: Walk, ok: bool, terminates: bool)
      reads this
    {
      if ok then w == Ok(state, terminates, any) else w == Bad
    }

    method WalkStmt(s: Stmt) returns (ok: bool, terminates: bool)
      modifies this
      ensures Left(StmtWalk(s, old(state), sums, old(any)), ok, terminates)
      decreases s, 1
    {
      ok, terminates := true, false;
      match s
      case Let(x, e) => state := Put(state, x, Flow(e, state, sums));
      case Set(x, e) => state := Put(state, x, Flow(e, state, sums));
      case Return(v) =>
        any, terminates := true, true;
        if v.Some? { ok := Flow(v.value, state, sums); }
      case If(_, _, _) => ok, terminates := WalkIf(s);
      case While(_, body) =>
        var before := state;
        ok, terminates := WalkBlock(body);
        if ok {
          MeetWith(before);
          terminates := false;
        }
      case Nested(body) => ok, terminates := WalkBlock(body);
      case Effect =>
    }

    /** `state = before && state`, entry by entry. */
    method MeetWith(before: Nulls)
      requires |before| == |state|
      modifies this`state
      ensures state == Meet(before, old(state))
    {
      var i := 0;
      while i < |before|
        invariant i <= |before| == |state|
        invariant forall k | 0 <= k < i :: state[k] == (before[k] && old(state)[k])
        invariant forall k | i <= k < |state| :: state[k] == old(state)[k]
      {
        state := state[i := before[i] && state[i]];
        i := i + 1;
      }
    }

    method WalkIf(s: Stmt) returns (ok: bool, terminates: bool)
      requires s.If?
      modifies this
      ensures Left(StmtWalk(s, old(state), sums, old(any)), ok, terminates)
      decreases s, 0
    {
      var before := state;
      state, terminates := Narrowed(s.cond, before, true), false;
      var thenEnds, elseEnds := false, false;
      ok, thenEnds := WalkBlock(s.thn);
      if !ok { return; }
      var thenState := state;
      state := Narrowed(s.cond, before, false);
      if s.els.Else? {
        ok, elseEnds := WalkBlock(s.els.b);
        if !ok { return; }
      }
      if thenEnds && elseEnds { state := before; }
      else if thenEnds {}
      else if elseEnds { state := thenState; }
      else { MeetWith(thenState); }
      terminates := s.els.Else? && thenEnds && elseEnds;
    }

    method WalkBlock(b: seq<Stmt>) returns (ok: bool, terminates: bool)
      modifies this
      ensures Left(BlockWalk(b, old(state), sums, old(any)), ok, terminates)
      decreases b
    {
      var i := 0;
      while i < |b|
        invariant i <= |b|
        invariant BlockWalk(b, old(state), sums, old(any)) == BlockWalk(b[i..], state, sums, any)
      {
        assert b[i..][0] == b[i] && b[i..][1..] == b[i + 1..];
        ok, terminates := WalkStmt(b[i]);
        if !ok || terminates { return; }
        i := i + 1;
      }
      ok, terminates := true, false;
    }
  }

  method FunctionReturnsNonnull(fn: Fn, sums: seq<bool>) returns (r: bool)
    ensures r == Accepts(fn, sums)
  {
    var w := new Walker(sums, fn.sure);
    var ok, terminates := w.WalkBlock(fn.body);
    r := ok && w.any;
  }
}
