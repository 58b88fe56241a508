/** Constant expressions read twice: folded straight from the tokens, or parsed into a
    tree that the compile-time interpreter evaluates. */
module Folding {
  import opened Options
  import opened ParserTokens
  import opened Ctfe

  type Tokens = seq<Kind>

  predicate At(ts: Tokens, t: Kind) {
    |ts| > 0 && ts[0] == t
  }

  // ----------------------------------------------------------------------- the folder

  /** `Aborts`: an overflowing division, or a negation that is checked and overflows,
      which stops the compiler. */
  datatype Folded = Aborts | NoFold | Folded(value: I64, rest: Tokens)

  function FoldAddSub(tab: Table, ts: Tokens): (r: Folded)
    ensures r.Folded? ==> |r.rest| < |ts|
    decreases |ts|, 3
  {
    match FoldMulDiv(tab, ts)
    case Folded(left, rest) => FoldAddRest(tab, left, rest)
    case stop => stop
  }

  function FoldAddRest(tab: Table, left: I64, ts: Tokens): (r: Folded)
    ensures r.Folded? ==> |r.rest| <= |ts|
    decreases |ts|, 4
  {
    if IsAddOp(ts) then
      match FoldMulDiv(tab, ts[1..])
      case Folded(v, rest) =>
        (match Binary(AddOp(ts[0]), left, v, 0)
         case Done(n, _) => FoldAddRest(tab, n, rest)
         case Fails => NoFold
         case Crash => Aborts)
      case stop => stop
    else Folded(left, ts)
  }

  predicate IsAddOp(ts: Tokens) {
    At(ts, Plus) || At(ts, Minus)
  }

  function AddOp(t: Kind): BinOp {
    if t == Plus then Add else Sub
  }

  function FoldMulDiv(tab: Table, ts: Tokens): (r: Folded)
    ensures r.Folded? ==> |r.rest| < |ts|
    decreases |ts|, 1
  {
    match FoldAtom(tab, ts)
    case Folded(left, rest) => FoldMulRest(tab, left, rest)
    case stop => stop
  }

  function FoldMulRest(tab: Table, left: I64, ts: Tokens): (r: Folded)
    ensures r.Folded? ==> |r.rest| <= |ts|
    decreases |ts|, 2
  {
    if IsMulOp(ts) then
      match FoldAtom(tab, ts[1..])
      case Folded(v, rest) =>
        (match Binary(MulOp(ts[0]), left, v, 0)
         case Done(n, _) => FoldMulRest(tab, n, rest)
         case Fails => NoFold
         case Crash => Aborts)
      case stop => stop
    else Folded(left, ts)
  }

  predicate IsMulOp(ts: Tokens) {
    At(ts, Star) || At(ts, Slash) || At(ts, Percent)
  }

  function MulOp(t: Kind): BinOp {
    if t == Star then Mul else if t == Slash then Div else Mod
  }

  function FoldAtom(tab: Table, ts: Tokens): (r: Folded)
    ensures r.Folded? ==> |r.rest| < |ts|
    decreases |ts|, 0
  {
    if |ts| == 0 then NoFold
    else match ts[0]
      case Num(n) => if MIN64 <= n <= MAX64 then Folded(n, ts[1..]) else NoFold
      case True => Folded(1, ts[1..])
      case False => Folded(0, ts[1..])
      case Chr(c) => Folded(c as int, ts[1..])
      case Minus =>
        (match FoldAtom(tab, ts[1..])
         case Folded(n, rest) => Negated(tab, n, rest)
         case stop => stop)
      case LParen => Closing(FoldAddSub(tab, ts[1..]))
      case Name(name) =>
        if At(ts[1..], LParen) then FoldCall(tab, name, ts[2..])
        else if name in tab.consts then Folded(tab.consts[name], ts[1..])
        else NoFold
      case _ => NoFold
  }

  /** The least number has no negative: the compiler stops or the result wraps. */
  function Negated(tab: Table, n: I64, rest: Tokens): (r: Folded)
    ensures r.Folded? ==> r.rest == rest
  {
    if n == MIN64 && tab.checked then Aborts else Folded(Unary(Neg, n), rest)
  }

  function Closing(inner: Folded): (r: Folded)
    ensures r.Folded? ==> inner.Folded? && |r.rest| < |inner.rest|
  {
    match inner
    case Folded(v, rest) => if At(rest, RParen) then Folded(v, rest[1..]) else NoFold
    case stop => stop
  }

  const CALL_BUDGET: nat := 5_000_000

  /** A call of a `constexpr` function, the opening parenthesis already read. */
  function FoldCall(tab: Table, name: string, ts: Tokens): (r: Folded)
    ensures r.Folded? ==> |r.rest| <= |ts|
    decreases |ts|, 5
  {
    match if At(ts, RParen) then FoldedArgs([], ts) else FoldArgs(tab, [], ts)
    case ArgsAbort => Aborts
    case NoArgs => NoFold
    case FoldedArgs(vals, rest) =>
      if !At(rest, RParen) then NoFold
      else match EvalConstFn(tab, name, vals, CALL_BUDGET)
        case Crash => Aborts
        case Fails => NoFold
        case Done(v, _) => Folded(v, rest[1..])
  }

  datatype FoldedArgs = ArgsAbort | NoArgs | FoldedArgs(vals: seq<I64>, rest: Tokens)

  function FoldArgs(tab: Table, vals: seq<I64>, ts: Tokens): (r: FoldedArgs)
    ensures r.FoldedArgs? ==> |r.rest| <= |ts|
    decreases |ts|, 4
  {
    match FoldAddSub(tab, ts)
    case Aborts => ArgsAbort
    case NoFold => NoArgs
    case Folded(v, rest) => if At(rest, Comma) then FoldArgs(tab, vals + [v], rest[1..]) else FoldedArgs(vals + [v], rest)
  }

  // ----------------------------------------------------------------------- the parser

  datatype Parsed = NoParse | Parsed(e: Expr, rest: Tokens)

  function ParseAdd(ts: Tokens): (r: Parsed)
    ensures r.Parsed? ==> |r.rest| < |ts|
    decreases |ts|, 3
  {
    match ParseMul(ts)
    case Parsed(l, rest) => ParseAddRest(l, rest)
    case NoParse => NoParse
  }

  function ParseAddRest(l: Expr, ts: Tokens): (r: Parsed)
    ensures r.Parsed? ==> |r.rest| <= |ts|
    decreases |ts|, 4
  {
    if IsAddOp(ts) then
      match ParseMul(ts[1..])
      case Parsed(e, rest) => ParseAddRest(Bin(AddOp(ts[0]), l, e), rest)
      case NoParse => NoParse
    else Parsed(l, ts)
  }

  function ParseMul(ts: Tokens): (r: Parsed)
    ensures r.Parsed? ==> |r.rest| < |ts|
    decreases |ts|, 1
  {
    match ParseUnary(ts)
    case Parsed(l, rest) => ParseMulRest(l, rest)
    case NoParse => NoParse
  }

  function ParseMulRest(l: Expr, ts: Tokens): (r: Parsed)
    ensures r.Parsed? ==> |r.rest| <= |ts|
    decreases |ts|, 2
  {
    if IsMulOp(ts) then
      match ParseUnary(ts[1..])
      case Parsed(e, rest) => ParseMulRest(Bin(MulOp(ts[0]), l, e), rest)
      case NoParse => NoParse
    else Parsed(l, ts)
  }

  /** Unary minus, numbers, named constants and parentheses.  What continues a primary
      expression in any other way is no arithmetic, nor is a name followed by `<`, which
      may start a generic literal. */
  function ParseUnary(ts: Tokens): (r: Parsed)
    ensures r.Parsed? ==> |r.rest| < |ts|
    decreases |ts|, 0
  {
    if |ts| == 0 then NoParse
    else match ts[0]
      case Minus =>
        (match ParseUnary(ts[1..])
         case Parsed(e, rest) => Parsed(Un(Neg, e), rest)
         case NoParse => NoParse)
      case Num(n) => if MIN64 <= n <= MAX64 then Primary(Lit(n), ts[1..]) else NoParse
      case True => Primary(Lit(1), ts[1..])
      case False => Primary(Lit(0), ts[1..])
      case Chr(c) => Primary(Lit(c as int), ts[1..])
      case Name(name) => if At(ts[1..], Kind.Lt) then NoParse else Primary(Ident(name), ts[1..])
      case LParen => ClosingParse(ParseAdd(ts[1..]))
      case _ => NoParse
  }

  function ClosingParse(inner: Parsed): (r: Parsed)
    ensures r.Parsed? ==> inner.Parsed? && |r.rest| < |inner.rest|
  {
    match inner
    case Parsed(e, rest) => if At(rest, RParen) then Primary(e, rest[1..]) else NoParse
    case NoParse => NoParse
  }

  predicate EndsPrimary(ts: Tokens) {
    |ts| == 0 || (ts[0] != LParen && ts[0] != LBracket && ts[0] != ColonColon && !ts[0].Other?)
  }

  function Primary(e: Expr, ts: Tokens): (r: Parsed)
    ensures r.Parsed? ==> r == Parsed(e, ts)
  {
    if EndsPrimary(ts) then Parsed(e, ts) else NoParse
  }

  // ------------------------------------------------------- the value of an expression

  /** The interpreter on arithmetic, without its budget. */
  function Value(tab: Table, e: Expr): Outcome<I64> {
    match e
    case Lit(n) => Done(n, 0)
    case Ident(n) => if n in tab.consts then Done(tab.consts[n], 0) else Fails
    case Un(Neg, x) =>
      (match Value(tab, x)
       case Done(v, _) => Done(Unary(Neg, v), 0)
       case stop => stop)
    case Bin(op, l, r) => Both(op, Value(tab, l), Value(tab, r))
    case _ => Fails
  }

  /** An operator on two outcomes, the left one first. */
  function Both(op: BinOp, x: Outcome<I64>, y: Outcome<I64>): Outcome<I64> {
    match x
    case Done(a, _) =>
      (match y
       case Done(b, left) => Binary(op, a, b, left)
       case stop => stop)
    case stop => stop
  }

  predicate IsArith(e: Expr) {
    match e
    case Lit(_) => true
    case Ident(_) => true
    case Un(op, x) => op == Neg && IsArith(x)
    case Bin(op, l, r) => op in {Add, Sub, Mul, Div, Mod} && IsArith(l) && IsArith(r)
    case _ => false
  }

  function Nodes(e: Expr): nat {
    match e
    case Un(_, x) => 1 + Nodes(x)
    case Bin(_, l, r) => 1 + Nodes(l) + Nodes(r)
    case _ => 1
  }

  /** An outcome with a given rest of the budget. */
  function Lift(o: Outcome<I64>, left: nat): Outcome<I64> {
    match o case Done(v, _) => Done(v, left) case stop => stop
  }

  function RightOf(tab: Table, x: Outcome<I64>, r: Expr): Outcome<I64> {
    if x.Done? then CtExpr(tab, r, map[], x.left) else Fails
  }

  lemma BinStep(tab: Table, op: BinOp, l: Expr, r: Expr, b: nat)
    requires b > 0 && op != And && op != Or
    ensures var x := CtExpr(tab, l, map[], b - 1);
            CtExpr(tab, Bin(op, l, r), map[], b) == Both(op, x, RightOf(tab, x, r))
  {
    hide Compute;
    assert CtExpr(tab, Bin(op, l, r), map[], b) == CtBin(tab, op, l, r, map[], b - 1);
    var x := CtExpr(tab, l, map[], b - 1);
    if x.Done? {
      assert CtBin(tab, op, l, r, map[], b - 1) == CtRight(tab, op, x.value, r, map[], x.left);
    }
  }

  lemma LiftBoth(op: BinOp, x: Outcome<I64>, y: Outcome<I64>, cx: Outcome<I64>, cy: Outcome<I64>, a: nat, b: nat)
    requires cx == Lift(x, a) && (x.Done? ==> cy == Lift(y, b))
    ensures Both(op, cx, cy) == Lift(Both(op, x, y), b)
  {
    hide Compute;
  }

  /** Given a step for each node, the interpreter finds the value. */
  lemma {:induction false} InterpreterValue(tab: Table, e: Expr, b: nat)
    requires IsArith(e) && b >= Nodes(e)
    ensures CtExpr(tab, e, map[], b) == Lift(Value(tab, e), b - Nodes(e))
    decreases e, 1
  {
    hide Compute, Both, CtBin;
    match e
    case Un(_, x) => InterpreterValue(tab, x, b - 1);
    case Bin(op, l, r) =>
      BinValue(tab, op, l, r, b - 1);
      BinStep(tab, op, l, r, b);
    case _ =>
  }

  lemma {:induction false} BinValue(tab: Table, op: BinOp, l: Expr, r: Expr, b: nat)
    requires IsArith(l) && IsArith(r) && b >= Nodes(l) + Nodes(r)
    ensures var cx := CtExpr(tab, l, map[], b);
            Both(op, cx, RightOf(tab, cx, r)) == Lift(Both(op, Value(tab, l), Value(tab, r)), b - Nodes(l) - Nodes(r))
    decreases Bin(op, l, r), 0
  {
    hide Compute, Both, Value, CtExpr;
    var x, left := Value(tab, l), b - Nodes(l);
    InterpreterValue(tab, l, b);
    if x.Done? { InterpreterValue(tab, r, left); }
    LiftBoth(op, x, Value(tab, r), Lift(x, left), RightOf(tab, Lift(x, left), r), left, left - Nodes(r));
  }

  /** Evaluating `e` negates the least 64-bit number. */
  predicate NegatesMin(tab: Table, e: Expr) {
    match e
    case Un(_, x) => NegatesMin(tab, x) || (Value(tab, x).Done? && Value(tab, x).value == MIN64)
    case Bin(_, l, r) => NegatesMin(tab, l) || (Value(tab, l).Done? && NegatesMin(tab, r))
    case _ => false
  }

  /** What folding an expression should give, `rest` being left unread. */
  function Expected(tab: Table, e: Expr, rest: Tokens): (r: Folded)
    ensures r.Folded? ==> r.rest == rest
  {
    if tab.checked && NegatesMin(tab, e) then Aborts
    else match Value(tab, e)
      case Done(v, _) => Folded(v, rest)
      case Crash => Aborts
      case Fails => NoFold
  }

  function FoldBoth(op: BinOp, l: Folded, r: Folded): Folded {
    match l
    case Folded(x, _) =>
      (match r
       case Folded(y, rest) => AsFolded(Binary(op, x, y, 0), rest)
       case stop => stop)
    case stop => stop
  }

  function AsFolded(o: Outcome<I64>, rest: Tokens): Folded {
    match o case Done(v, _) => Folded(v, rest) case Fails => NoFold case Crash => Aborts
  }

  lemma ExpectedBin(tab: Table, op: BinOp, l: Expr, r: Expr, a: Tokens, b: Tokens)
    ensures Expected(tab, Bin(op, l, r), b) == FoldBoth(op, Expected(tab, l, a), Expected(tab, r, b))
  {
    hide Compute;
    assert Value(tab, Bin(op, l, r)) == Both(op, Value(tab, l), Value(tab, r));
  }

  lemma ExpectedNeg(tab: Table, x: Expr, rest: Tokens)
    ensures var v := Expected(tab, x, rest);
            Expected(tab, Un(Neg, x), rest) ==
            if v.Folded? then Negated(tab, v.value, rest) else v
  {
    hide Compute;
  }

  // ---------------------------------------------------------------- the two readings agree

  lemma {:induction false} AddAgrees(tab: Table, ts: Tokens)
    requires ParseAdd(ts).Parsed?
    ensures var p := ParseAdd(ts); IsArith(p.e) && FoldAddSub(tab, ts) == Expected(tab, p.e, p.rest)
    decreases |ts|, 3
  {
    hide Compute;
    MulAgrees(tab, ts);
    var l := ParseMul(ts);
    AddRestAgrees(tab, l.e, l.rest);
  }

  /** Going on after a left operand that has been read. */
  function FoldOn(tab: Table, l: Folded): Folded {
    match l case Folded(v, rest) => FoldAddRest(tab, v, rest) case stop => stop
  }

  function MulOn(tab: Table, l: Folded): Folded {
    match l case Folded(v, rest) => FoldMulRest(tab, v, rest) case stop => stop
  }

  lemma {:induction false} AddRestAgrees(tab: Table, l: Expr, ts: Tokens)
    requires ParseAddRest(l, ts).Parsed? && IsArith(l)
    ensures var p := ParseAddRest(l, ts); IsArith(p.e) && FoldOn(tab, Expected(tab, l, ts)) == Expected(tab, p.e, p.rest)
    decreases |ts|, 4
  {
    hide Compute, Value, NegatesMin, Expected;
    if IsAddOp(ts) {
      var op := AddOp(ts[0]);
      MulAgrees(tab, ts[1..]);
      var r := ParseMul(ts[1..]);
      AddRestAgrees(tab, Bin(op, l, r.e), r.rest);
      ExpectedBin(tab, op, l, r.e, ts, r.rest);
    }
  }

  lemma {:induction false} MulAgrees(tab: Table, ts: Tokens)
    requires ParseMul(ts).Parsed?
    ensures var p := ParseMul(ts); IsArith(p.e) && FoldMulDiv(tab, ts) == Expected(tab, p.e, p.rest)
    decreases |ts|, 1
  {
    hide Compute;
    AtomAgrees(tab, ts);
    var l := ParseUnary(ts);
    MulRestAgrees(tab, l.e, l.rest);
  }

  lemma {:induction false} MulRestAgrees(tab: Table, l: Expr, ts: Tokens)
    requires ParseMulRest(l, ts).Parsed? && IsArith(l)
    ensures var p := ParseMulRest(l, ts); IsArith(p.e) && MulOn(tab, Expected(tab, l, ts)) == Expected(tab, p.e, p.rest)
    decreases |ts|, 2
  {
    hide Compute, Value, NegatesMin, Expected;
    if IsMulOp(ts) {
      var op := MulOp(ts[0]);
      AtomAgrees(tab, ts[1..]);
      var r := ParseUnary(ts[1..]);
      MulRestAgrees(tab, Bin(op, l, r.e), r.rest);
      ExpectedBin(tab, op, l, r.e, ts, r.rest);
    }
  }

  lemma {:induction false} AtomAgrees(tab: Table, ts: Tokens)
    requires ParseUnary(ts).Parsed?
    ensures var p := ParseUnary(ts); IsArith(p.e) && FoldAtom(tab, ts) == Expected(tab, p.e, p.rest)
    decreases |ts|, 0
  {
    hide Compute;
    match ts[0]
    case Minus =>
      AtomAgrees(tab, ts[1..]);
      ExpectedNeg(tab, ParseUnary(ts[1..]).e, ParseUnary(ts[1..]).rest);
    case LParen => AddAgrees(tab, ts[1..]);
    case _ =>
  }

  /** On tokens the parser reads as arithmetic, folding gives what parsing and then
      interpreting gives, and stops at the same token - unless the least number is
      negated on the way and the compiler checks for overflow: the interpreter always
      wraps, the folder then stops the compiler. */
  lemma FoldIsParseThenEvaluate(tab: Table, ts: Tokens, b: nat)
    requires ParseAdd(ts).Parsed? && b >= Nodes(ParseAdd(ts).e)
    ensures var p := ParseAdd(ts);
            FoldAddSub(tab, ts) ==
            if tab.checked && NegatesMin(tab, p.e) then Aborts
            else AsFolded(CtExpr(tab, p.e, map[], b), p.rest)
  {
    AddAgrees(tab, ts);
    InterpreterValue(tab, ParseAdd(ts).e, b);
  }
}
