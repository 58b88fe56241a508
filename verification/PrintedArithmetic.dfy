/** Arithmetic printed with as few parentheses as precedence allows, and read back. */
module PrintedArithmetic {
  import opened Options
  import opened ParserTokens
  import opened Ctfe
  import opened Folding

  function OpToken(op: BinOp): Kind {
    match op
    case Add => Plus
    case Sub => Minus
    case Mul => Star
    case Div => Slash
    case _ => Percent
  }

  /** 0 for sums, 1 for products. */
  function Level(op: BinOp): nat {
    if op == Add || op == Sub then 0 else 1
  }

  /** `e` where something binding as tightly as `level` is expected: 0 a sum, 1 a
      product, 2 an operand. */
  function Print(e: Expr, level: nat): Tokens
    decreases e, 1
  {
    match e
    case Lit(n) => [Num(n)]
    case Ident(n) => [Name(n)]
    case Un(_, x) => [Minus] + Print(x, 2)
    case Bin(op, _, _) => if level <= Level(op) then PrintBin(e) else [LParen] + PrintBin(e) + [RParen]
    case _ => []
  }

  function PrintBin(e: Expr): Tokens
    requires e.Bin?
    decreases e, 0
  {
    Print(e.l, Level(e.op)) + [OpToken(e.op)] + Print(e.r, Level(e.op) + 1)
  }

  /** What may follow an operand. */
  predicate EndsOperand(rest: Tokens) {
    EndsPrimary(rest) && !At(rest, Kind.Lt)
  }

  predicate Follows(rest: Tokens) {
    EndsOperand(rest) && !IsMulOp(rest)
  }

  lemma Front(t: Kind, rest: Tokens)
    ensures ([t] + rest)[0] == t && ([t] + rest)[1..] == rest
  {
  }

  lemma Glue(a: Tokens, t: Kind, b: Tokens, c: Tokens)
    ensures a + [t] + b + c == a + ([t] + (b + c))
  {
  }

  lemma {:induction false} SumParses(e: Expr, rest: Tokens)
    requires IsArith(e) && Follows(rest)
    ensures ParseAdd(Print(e, 0) + rest) == ParseAddRest(e, rest)
    decreases e, 3
  {
    hide ParseMul, ParseAddRest;
    if e.Bin? && Level(e.op) == 0 {
      BinarySum(e, rest);
    } else {
      assert Print(e, 0) == Print(e, 1);
      ProductParses(e, rest);
      ProductEnds(e, rest);
    }
  }

  /** A product on its own is a sum. */
  lemma ProductEnds(e: Expr, rest: Tokens)
    requires Follows(rest)
    ensures ParseMulRest(e, rest) == Parsed(e, rest)
  {
  }

  lemma {:induction false} BinarySum(e: Expr, rest: Tokens)
    requires e.Bin? && Level(e.op) == 0 && IsArith(e) && Follows(rest)
    ensures ParseAdd(PrintBin(e) + rest) == ParseAddRest(e, rest)
    decreases e, 0, 0
  {
    hide ParseAdd, ParseMul;
    var tail := Print(e.r, 1) + rest;
    Front(OpToken(e.op), tail);
    SumParses(e.l, [OpToken(e.op)] + tail);
    ProductParses(e.r, rest);
    ProductEnds(e.r, rest);
    Glue(Print(e.l, 0), OpToken(e.op), Print(e.r, 1), rest);
  }

  lemma {:induction false} ProductParses(e: Expr, rest: Tokens)
    requires IsArith(e) && EndsOperand(rest)
    ensures ParseMul(Print(e, 1) + rest) == ParseMulRest(e, rest)
    decreases e, 2
  {
    hide ParseUnary, ParseMulRest;
    if e.Bin? && Level(e.op) == 1 {
      BinaryProduct(e, rest);
    } else {
      assert Print(e, 1) == Print(e, 2);
      OperandParses(e, rest);
    }
  }

  lemma {:induction false} BinaryProduct(e: Expr, rest: Tokens)
    requires e.Bin? && Level(e.op) == 1 && IsArith(e) && EndsOperand(rest)
    ensures ParseMul(PrintBin(e) + rest) == ParseMulRest(e, rest)
    decreases e, 0, 0
  {
    hide ParseMul, ParseUnary;
    var tail := Print(e.r, 2) + rest;
    Front(OpToken(e.op), tail);
    ProductParses(e.l, [OpToken(e.op)] + tail);
    OperandParses(e.r, rest);
    Glue(Print(e.l, 1), OpToken(e.op), Print(e.r, 2), rest);
  }

  /** What stands between parentheses is read as a sum. */
  lemma {:induction false} InsideParses(e: Expr, rest: Tokens)
    requires e.Bin? && IsArith(e) && Follows(rest)
    ensures ParseAdd(PrintBin(e) + rest) == ParseAddRest(e, rest)
    decreases e, 0, 1
  {
    hide ParseMul, ParseAddRest;
    if Level(e.op) == 0 {
      BinarySum(e, rest);
    } else {
      BinaryProduct(e, rest);
      ProductEnds(e, rest);
    }
  }

  lemma WordReads(t: Kind, e: Expr, rest: Tokens)
    requires EndsOperand(rest) && IsArith(e)
    requires (e.Lit? && t == Num(e.n)) || (e.Ident? && t == Name(e.name))
    ensures ParseUnary([t] + rest) == Parsed(e, rest)
  {
    Front(t, rest);
  }

  lemma MinusReads(x: Expr, ts: Tokens, rest: Tokens)
    requires ParseUnary(ts) == Parsed(x, rest)
    ensures ParseUnary([Minus] + ts) == Parsed(Un(Neg, x), rest)
  {
    Front(Minus, ts);
  }

  lemma ParenReads(e: Expr, ts: Tokens, rest: Tokens)
    requires EndsOperand(rest) && ParseAdd(ts) == Parsed(e, [RParen] + rest)
    ensures ParseUnary([LParen] + ts) == Parsed(e, rest)
  {
    hide ParseAdd;
    Front(LParen, ts);
    Front(RParen, rest);
  }

  /** A closing parenthesis ends a sum. */
  lemma ParenEnds(e: Expr, rest: Tokens)
    ensures Follows([RParen] + rest) && ParseAddRest(e, [RParen] + rest) == Parsed(e, [RParen] + rest)
  {
    Front(RParen, rest);
  }

  lemma {:induction false} OperandParses(e: Expr, rest: Tokens)
    requires IsArith(e) && EndsOperand(rest)
    ensures ParseUnary(Print(e, 2) + rest) == Parsed(e, rest)
    decreases e, 1
  {
    hide ParseUnary, ParseAdd, ParseAddRest, Follows, EndsPrimary, PrintBin;
    match e
    case Lit(n) => WordReads(Num(n), e, rest);
    case Ident(n) => WordReads(Name(n), e, rest);
    case Un(_, x) =>
      OperandParses(x, rest);
      MinusReads(x, Print(x, 2) + rest, rest);
      assert [Minus] + Print(x, 2) + rest == [Minus] + (Print(x, 2) + rest);
    case Bin(_, _, _) =>
      var after := [RParen] + rest;
      ParenEnds(e, rest);
      InsideParses(e, after);
      ParenReads(e, PrintBin(e) + after, rest);
      assert [LParen] + PrintBin(e) + [RParen] + rest == [LParen] + (PrintBin(e) + after);
  }

  predicate EndsSum(rest: Tokens) {
    Follows(rest) && !IsAddOp(rest)
  }

  /** A printed expression is parsed back, up to its last token. */
  lemma PrintedParses(e: Expr, rest: Tokens)
    requires IsArith(e) && EndsSum(rest)
    ensures ParseAdd(Print(e, 0) + rest) == Parsed(e, rest)
  {
    SumParses(e, rest);
  }

  /** Folding a printed expression consumes exactly its tokens and gives what the
      interpreter gives on the expression; it aborts instead when the least number is
      negated on the way under overflow checks. */
  lemma PrintedFolds(tab: Table, e: Expr, rest: Tokens, b: nat)
    requires IsArith(e) && EndsSum(rest) && b >= Nodes(e)
    ensures FoldAddSub(tab, Print(e, 0) + rest) ==
            if tab.checked && NegatesMin(tab, e) then Aborts
            else AsFolded(CtExpr(tab, e, map[], b), rest)
  {
    PrintedParses(e, rest);
    FoldIsParseThenEvaluate(tab, Print(e, 0) + rest, b);
  }

  // -------------------------------------------------------------------------- calls

  /** What may follow an argument. */
  predicate EndsArgument(rest: Tokens) {
    At(rest, Comma) || At(rest, RParen)
  }

  /** These tokens fold to `v`, as an argument. */
  ghost predicate FoldsTo(tab: Table, part: Tokens, v: I64) {
    forall rest | EndsArgument(rest) :: FoldAddSub(tab, part + rest) == Folded(v, rest)
  }

  /** The parts between commas, and a closing parenthesis. */
  function Listed(parts: seq<Tokens>): Tokens {
    if |parts| == 0 then [RParen]
    else parts[0] + (if |parts| == 1 then [RParen] else [Comma] + Listed(parts[1..]))
  }

  function CallTokens(name: string, parts: seq<Tokens>): Tokens {
    [Name(name), LParen] + Listed(parts)
  }

  ghost predicate AllFold(tab: Table, parts: seq<Tokens>, vals: seq<I64>) {
    |parts| == |vals| && forall i | 0 <= i < |parts| :: FoldsTo(tab, parts[i], vals[i])
  }

  lemma ArgumentFolds(tab: Table, before: seq<I64>, part: Tokens, v: I64, rest: Tokens)
    requires FoldsTo(tab, part, v) && EndsArgument(rest)
    ensures FoldArgs(tab, before, part + rest) ==
            if At(rest, Comma) then FoldArgs(tab, before + [v], rest[1..]) else FoldedArgs(before + [v], rest)
  {
    hide FoldAddSub;
  }

  lemma {:induction false} ArgumentsFold(tab: Table, before: seq<I64>, parts: seq<Tokens>, vals: seq<I64>, rest: Tokens)
    requires AllFold(tab, parts, vals) && |parts| > 0
    ensures FoldArgs(tab, before, Listed(parts) + rest) == FoldedArgs(before + vals, [RParen] + rest)
    decreases |parts|
  {
    hide FoldsTo, FoldArgs;
    var tail := (if |parts| == 1 then [RParen] else [Comma] + Listed(parts[1..])) + rest;
    assert Listed(parts) + rest == parts[0] + tail;
    ArgumentFolds(tab, before, parts[0], vals[0], tail);
    if |parts| == 1 {
      assert vals == [vals[0]];
    } else {
      assert tail[1..] == Listed(parts[1..]) + rest;
      ArgumentsFold(tab, before + [vals[0]], parts[1..], vals[1..], rest);
      assert before + [vals[0]] + vals[1..] == before + vals;
    }
  }

  /** A call folds to what the interpreter finds for its folded arguments, in their order,
      on a budget of five million steps of its own; the reader then stands behind the call. */
  lemma CallFolds(tab: Table, name: string, parts: seq<Tokens>, vals: seq<I64>, rest: Tokens)
    requires AllFold(tab, parts, vals)
    ensures FoldAtom(tab, CallTokens(name, parts) + rest) == AsFolded(EvalConstFn(tab, name, vals, 5_000_000), rest)
  {
    hide FoldAddSub, FoldArgs, EvalConstFn;
    var ts := CallTokens(name, parts) + rest;
    assert ts[1..][0] == LParen && ts[2..] == Listed(parts) + rest;
    if |parts| == 0 {
      assert vals == [] && ts[2..] == [RParen] + rest;
    } else {
      ArgumentsFold(tab, [], parts, vals, rest);
      assert [] + vals == vals;
      NoClosing(tab, parts, vals, rest);
    }
    assert ([RParen] + rest)[1..] == rest;
  }

  lemma NothingToFold(tab: Table, ts: Tokens)
    requires At(ts, RParen)
    ensures FoldAddSub(tab, ts) == NoFold
  {
    assert FoldAtom(tab, ts) == NoFold;
    assert FoldMulDiv(tab, ts) == NoFold;
  }

  /** An argument that folds does not start with a closing parenthesis. */
  lemma NoClosing(tab: Table, parts: seq<Tokens>, vals: seq<I64>, rest: Tokens)
    requires AllFold(tab, parts, vals) && |parts| > 0
    ensures !At(Listed(parts) + rest, RParen)
  {
    hide FoldAddSub;
    var tail := (if |parts| == 1 then [RParen] else [Comma] + Listed(parts[1..])) + rest;
    assert Listed(parts) + rest == parts[0] + tail;
    assert FoldsTo(tab, parts[0], vals[0]) && EndsArgument(tail);
    if At(parts[0] + tail, RParen) { NothingToFold(tab, parts[0] + tail); }
  }

  lemma AtomAlone(tab: Table, ts: Tokens, v: I64, rest: Tokens)
    requires FoldAtom(tab, ts) == Folded(v, rest) && EndsArgument(rest)
    ensures FoldAddSub(tab, ts) == Folded(v, rest)
  {
    hide FoldAtom;
    assert FoldMulRest(tab, v, rest) == Folded(v, rest) == FoldAddRest(tab, v, rest);
    assert FoldMulDiv(tab, ts) == Folded(v, rest);
  }

  /** Truth values fold to 1 and 0, a character to its code. */
  lemma LiteralsFold(tab: Table, c: char)
    ensures FoldsTo(tab, [True], 1) && FoldsTo(tab, [False], 0) && FoldsTo(tab, [Chr(c)], c as int)
  {
    hide FoldAddSub;
    forall t: Kind, v: I64, rest | EndsArgument(rest) && ((t == True && v == 1) || (t == False && v == 0) || (t == Chr(c) && v == c as int))
      ensures FoldAddSub(tab, [t] + rest) == Folded(v, rest)
    {
      Front(t, rest);
      AtomAlone(tab, [t] + rest, v, rest);
    }
  }

  /** So calls can be arguments of calls. */
  lemma CallIsArgument(tab: Table, name: string, parts: seq<Tokens>, vals: seq<I64>, v: I64)
    requires AllFold(tab, parts, vals)
    requires var o := EvalConstFn(tab, name, vals, 5_000_000); o.Done? && o.value == v
    ensures FoldsTo(tab, CallTokens(name, parts), v)
  {
    hide EvalConstFn, FoldAtom, FoldAddSub;
    forall rest | EndsArgument(rest) ensures FoldAddSub(tab, CallTokens(name, parts) + rest) == Folded(v, rest) {
      CallFolds(tab, name, parts, vals, rest);
      AtomAlone(tab, CallTokens(name, parts) + rest, v, rest);
    }
  }

  /** And so can printed expressions. */
  lemma PrintedIsArgument(tab: Table, e: Expr, b: nat)
    requires IsArith(e) && b >= Nodes(e) && CtExpr(tab, e, map[], b).Done? && !(tab.checked && NegatesMin(tab, e))
    ensures FoldsTo(tab, Print(e, 0), CtExpr(tab, e, map[], b).value)
  {
    forall rest | EndsArgument(rest)
      ensures FoldAddSub(tab, Print(e, 0) + rest) == Folded(CtExpr(tab, e, map[], b).value, rest)
    {
      PrintedFolds(tab, e, rest, b);
    }
  }
}
