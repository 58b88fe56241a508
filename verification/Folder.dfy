/** The constant folder as it runs, moving one position over the tokens. */
module Folder {
  import opened ParserTokens
  import opened Ctfe
  import opened Interpreter
  import Folding

  class Reader {
    const tab: Table
    const toks: seq<Kind>
    var pos: nat

    ghost predicate Valid()
      reads this
    {
      pos <= |toks|
    }

    ghost function Ahead(): seq<Kind>
      requires Valid()
      reads this
    {
      toks[pos..]
    }

    constructor (tab: Table, toks: seq<Kind>)
      ensures Valid() && this.tab == tab && this.toks == toks && Ahead() == toks
    {
      this.tab, this.toks, pos := tab, toks, 0;
    }

    predicate Sees(t: Kind)
      requires Valid()
      reads this
      ensures Sees(t) <==> Folding.At(Ahead(), t)
    {
      pos < |toks| && toks[pos] == t
    }

    method Bump()
      requires Valid() && pos < |toks|
      modifies this
      ensures Valid() && Ahead() == old(Ahead())[1..] && pos == old(pos) + 1
    {
      pos := pos + 1;
    }

    /** The answer is the result specified, and what it leaves unread lies ahead. */
    ghost predicate Agrees(f: Folding.Folded, a: Answer<I64>)
      reads this
    {
      && Valid()
      && match a
         case Crashed => f.Aborts?
         case NoValue => f.NoFold?
         case Got(v) => f == Folding.Folded(v, Ahead())
    }

    method FoldAddSub() returns (a: Answer<I64>)
      requires Valid()
      modifies this
      ensures Agrees(Folding.FoldAddSub(tab, old(Ahead())), a)
      decreases |toks| - pos, 3
    {
      a := FoldMulDiv();
      if !a.Got? { return; }
      var left := a.value;
      while Sees(Plus) || Sees(Minus)
        invariant Valid() && pos > old(pos)
        invariant Folding.FoldAddSub(tab, old(Ahead())) == Folding.FoldAddRest(tab, left, Ahead())
        decreases |toks| - pos
      {
        var op := Folding.AddOp(toks[pos]);
        Bump();
        a := FoldMulDiv();
        if !a.Got? { return; }
        left := Sum(op, left, a.value);
      }
      a := Got(left);
    }

    /** Wrapping addition or subtraction. */
    function Sum(op: BinOp, l: I64, r: I64): (n: I64)
      requires op == Add || op == Sub
      ensures Binary(op, l, r, 0) == Done(n, 0)
    {
      if op == Add then Wrap(l + r) else Wrap(l - r)
    }

    method FoldMulDiv() returns (a: Answer<I64>)
      requires Valid()
      modifies this
      ensures Agrees(Folding.FoldMulDiv(tab, old(Ahead())), a)
      ensures a.Got? ==> pos > old(pos)
      decreases |toks| - pos, 1
    {
      a := FoldAtom();
      if !a.Got? { return; }
      var left := a.value;
      while Sees(Star) || Sees(Slash) || Sees(Percent)
        invariant Valid() && pos > old(pos)
        invariant Folding.FoldMulDiv(tab, old(Ahead())) == Folding.FoldMulRest(tab, left, Ahead())
        decreases |toks| - pos
      {
        var op := Folding.MulOp(toks[pos]);
        Bump();
        a := FoldAtom();
        if !a.Got? { return; }
        var r := Binary(op, left, a.value, 0);
        if r.Fails? { return NoValue; }
        if r.Crash? { return Crashed; }
        left := r.value;
      }
      a := Got(left);
    }

    method FoldAtom() returns (a: Answer<I64>)
      requires Valid()
      modifies this
      ensures Agrees(Folding.FoldAtom(tab, old(Ahead())), a)
      ensures a.Got? ==> pos > old(pos)
      decreases |toks| - pos, 0
    {
      if pos == |toks| { return NoValue; }
      var t := toks[pos];
      assert t == Ahead()[0];
      Bump();
      match t
      case Num(n) => a := if MIN64 <= n <= MAX64 then Got(n) else NoValue;
      case True => a := Got(1);
      case False => a := Got(0);
      case Chr(c) => a := Got(c as int);
      case Minus =>
        a := FoldAtom();
        if a.Got? { a := if a.value == MIN64 && tab.checked then Crashed else Got(Ctfe.Unary(Neg, a.value)); }
      case LParen =>
        a := FoldAddSub();
        if !a.Got? { return; }
        if !Sees(RParen) { return NoValue; }
        Bump();
      case Name(name) =>
        if Sees(LParen) {
          Bump();
          a := FoldCall(name);
        } else {
          a := if name in tab.consts then Got(tab.consts[name]) else NoValue;
        }
      case _ => a := NoValue;
    }

    method FoldCall(name: string) returns (a: Answer<I64>)
      requires Valid()
      modifies this
      ensures Agrees(Folding.FoldCall(tab, name, old(Ahead())), a)
      ensures a.Got? ==> pos > old(pos)
      decreases |toks| - pos, 5
    {
      var args: seq<I64> := [];
      if !Sees(RParen) {
        var vals := FoldArgs();
        if vals.Crashed? { return Crashed; }
        if vals.NoValue? { return NoValue; }
        args := vals.value;
      }
      if !Sees(RParen) { return NoValue; }
      Bump();
      var m := new Machine(tab, 0);
      var r := m.RunFn(name, args, Folding.CALL_BUDGET);
      a := r.0;
    }

    method FoldArgs() returns (a: Answer<seq<I64>>)
      requires Valid()
      modifies this
      ensures Valid() && (a.Got? ==> pos >= old(pos))
      ensures match Folding.FoldArgs(tab, [], old(Ahead())) {
                case ArgsAbort => a.Crashed?
                case NoArgs => a.NoValue?
                case FoldedArgs(vals, rest) => a == Got(vals) && Ahead() == rest
              }
      decreases |toks| - pos, 4
    {
      var vals: seq<I64> := [];
      while true
        invariant Valid() && pos >= old(pos)
        invariant Folding.FoldArgs(tab, [], old(Ahead())) == Folding.FoldArgs(tab, vals, Ahead())
        decreases |toks| - pos
      {
        var v := FoldAddSub();
        if v.Crashed? { return Crashed; }
        if v.NoValue? { return NoValue; }
        vals := vals + [v.value];
        if !Sees(Comma) { return Got(vals); }
        Bump();
      }
    }
  }
}
