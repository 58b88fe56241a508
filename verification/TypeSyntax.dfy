/** Type expressions: the text they are printed as, and the parser that reads them,
    which splits `>>` in place when a nested generic closes. */
module TypeSyntax {
  import opened Options
  import opened LexSpec
  import opened ParserTokens
  import opened TypeKeys
  import Ctfe
  import Folding

  datatype Mutness = Default | Mutable | Constant

  datatype Type =
    | Named(name: string)
    | Generic(name: string, args: seq<Type>)
    | AssocPath(base: Type, segment: string)
    | Ref(mutness: Mutness, inner: Type)
    | Ptr(mutness: Mutness, inner: Type)
    | RawPtr(mutness: Mutness, inner: Type)
    | OwnPtr(mutness: Mutness, inner: Type)
    | Heap(inner: Type)
    | Array(len: int, elem: Type)
    | Slice(mutness: Mutness, elem: Type)
    | Vec(elem: Type)

  // ------------------------------------------------------------------------- printing

  function MutText(m: Mutness): string {
    if m == Mutable then "mut " else ""
  }

  function Text(t: Type): string {
    match t
    case Named(n) => n
    case Generic(n, args) => n + "<" + TextList(args) + ">"
    case AssocPath(base, segment) => Text(base) + "::" + segment
    case Ref(m, i) => "&" + MutText(m) + Text(i)
    case Ptr(m, i) => "*" + MutText(m) + Text(i)
    case RawPtr(m, i) => "raw *" + MutText(m) + Text(i)
    case OwnPtr(m, i) => "own *" + MutText(m) + Text(i)
    case Heap(i) => "own &" + Text(i)
    case Array(n, e) => "[" + Signed(n) + "]" + Text(e)
    case Slice(m, e) => "[]" + MutText(m) + Text(e)
    case Vec(e) => "[*]" + Text(e)
  }

  /** Joined by a comma and a space. */
  function TextList(ts: seq<Type>): string {
    if |ts| == 0 then ""
    else if |ts| == 1 then Text(ts[0])
    else Text(ts[0]) + ", " + TextList(ts[1..])
  }

  // ----------------------------------------------------------------------- the tokens

  /** The parser's view of a lexer token; `reserved` are the other keywords. */
  function KindOf(t: Tok, reserved: set<string>): Kind {
    match t
    case Word(w) => WordKind(w, reserved)
    case IntTok(n) => Num(n)
    case ChrTok(c) => Chr(c)
    case Op(o) => OpKind(o)
    case _ => Other(t)
  }

  function WordKind(w: string, reserved: set<string>): Kind {
    if w == "mut" then Mut
    else if w == "const" then Const
    else if w == "constexpr" then Constexpr
    else if w == "thread_local" then ThreadLocal
    else if w == "raw" then Raw
    else if w == "own" then Own
    else if w == "unit" then UnitWord
    else if w == "true" then True
    else if w == "false" then False
    else if w in reserved then Other(Word(w))
    else Name(w)
  }

  function OpKind(o: string): Kind {
    if |o| == 1 then CharKind(o[0])
    else if |o| == 2 && o[0] == '>' && o[1] == '>' then Shr
    else if |o| == 2 && o[0] == ':' && o[1] == ':' then ColonColon
    else Other(Op(o))
  }

  function CharKind(c: char): Kind {
    match c
    case '+' => Plus
    case '-' => Minus
    case '*' => Star
    case '/' => Slash
    case '%' => Percent
    case '(' => LParen
    case ')' => RParen
    case '[' => LBracket
    case ']' => RBracket
    case '<' => Lt
    case '>' => Gt
    case ',' => Comma
    case '&' => Amp
    case _ => Other(Op([c]))
  }

  function Kinds(ts: seq<Tok>, reserved: set<string>): (r: seq<Kind>)
    ensures |r| == |ts|
  {
    if |ts| == 0 then [] else [KindOf(ts[0], reserved)] + Kinds(ts[1..], reserved)
  }

  // ----------------------------------------------------------------------- the parser

  datatype State = State(toks: seq<Kind>, pos: nat)

  predicate Within(s: State) {
    s.pos <= |s.toks|
  }

  function Ahead(s: State): seq<Kind>
    requires Within(s)
  {
    s.toks[s.pos..]
  }

  predicate At(s: State, t: Kind) {
    s.pos < |s.toks| && s.toks[s.pos] == t
  }

  predicate AtName(s: State) {
    s.pos < |s.toks| && s.toks[s.pos].Name?
  }

  function Bump(s: State): State {
    s.(pos := s.pos + 1)
  }

  datatype Got = Failed(s: State) | Got(s: State, t: Type)

  /** Tokens may have been rewritten, but only `s.pos` and later ones are still to come. */
  predicate Moves(a: State, g: Got) {
    && Within(g.s) && |g.s.toks| == |a.toks|
    && (g.Got? ==> g.s.pos > a.pos)
  }

  function TakeMutness(s: State): (r: (State, Mutness))
    requires Within(s)
    ensures Within(r.0) && r.0.toks == s.toks && r.0.pos >= s.pos
  {
    var n := if At(s, ThreadLocal) then Bump(s) else s;
    if At(n, Mut) then (Bump(n), Mutable)
    else if At(n, Const) || At(n, Constexpr) then (Bump(n), Constant)
    else (n, Default)
  }

  /** Consume one `>`; of a `>>` the first half, leaving a `>` in its place. */
  function ExpectGt(s: State): (r: State)
    requires Within(s)
    ensures Within(r) && |r.toks| == |s.toks| && r.pos >= s.pos
  {
    if At(s, Gt) then Bump(s)
    else if At(s, Shr) then s.(toks := s.toks[s.pos := Gt])
    else s
  }

  function ParseType(tab: Ctfe.Table, s: State): (g: Got)
    requires Within(s)
    ensures Moves(s, g)
    decreases |s.toks| - s.pos, 3
  {
    var g := ParseBase(tab, s);
    if g.Got? && At(g.s, LParen) then Failed(g.s) else g
  }

  function ParseBase(tab: Ctfe.Table, s: State): (g: Got)
    requires Within(s)
    ensures Moves(s, g)
    decreases |s.toks| - s.pos, 2
  {
    if s.pos == |s.toks| then Failed(s)
    else match s.toks[s.pos]
      case Raw => ParseWordPointer(tab, Bump(s), Raw)
      case Own => ParseWordPointer(tab, Bump(s), Own)
      case Amp => ParsePointer(tab, Bump(s), Amp)
      case Star => ParsePointer(tab, Bump(s), Star)
      case LBracket => ParseBracket(tab, Bump(s))
      case UnitWord => Got(Bump(s), Named("unit"))
      case Name(n) => ParseNamed(tab, Bump(s), n)
      case _ => Failed(s)
  }

  /** After `raw` or `own`. */
  function ParseWordPointer(tab: Ctfe.Table, s: State, word: Kind): (g: Got)
    requires Within(s)
    ensures Moves(s, g)
    decreases |s.toks| - s.pos, 5
  {
    if At(s, Star) then ParsePointer(tab, Bump(s), word)
    else if word == Own && At(s, Amp) then ParsePointer(tab, Bump(s), Percent)
    else Failed(s)
  }

  /** The rest of a pointer type; `sigil` tells which kind it is (`Percent`: `own &`). */
  function ParsePointer(tab: Ctfe.Table, s: State, sigil: Kind): (g: Got)
    requires Within(s)
    ensures Moves(s, g)
    decreases |s.toks| - s.pos, 4
  {
    var m := TakeMutness(s);
    match ParseType(tab, m.0)
    case Failed(e) => Failed(e)
    case Got(e, inner) => Got(e, Pointer(sigil, m.1, inner))
  }

  function Pointer(sigil: Kind, m: Mutness, inner: Type): Type {
    match sigil
    case Raw => RawPtr(m, inner)
    case Own => OwnPtr(m, inner)
    case Amp => Ref(m, inner)
    case Star => Ptr(m, inner)
    case _ => Heap(inner)
  }

  /** After `[`: a slice, a vector, or an array whose length is folded. */
  function ParseBracket(tab: Ctfe.Table, s: State): (g: Got)
    requires Within(s)
    ensures Moves(s, g)
    decreases |s.toks| - s.pos, 4
  {
    if At(s, RBracket) then
      var m := At(Bump(s), Mut);
      match ParseType(tab, if m then Bump(Bump(s)) else Bump(s))
      case Failed(e) => Failed(e)
      case Got(e, elem) => Got(e, Slice(if m then Mutable else Default, elem))
    else if At(s, Star) then
      if !At(Bump(s), RBracket) then Failed(s)
      else
        match ParseType(tab, Bump(Bump(s)))
        case Failed(e) => Failed(e)
        case Got(e, elem) => Got(e, Vec(elem))
    else
      match Folding.FoldAddSub(tab, Ahead(s))
      case Folded(n, rest) =>
        var next := s.(pos := |s.toks| - |rest|);
        if !At(next, RBracket) then Failed(next)
        else
          (match ParseType(tab, Bump(next))
           case Failed(e) => Failed(e)
           case Got(e, elem) => Got(e, Array(n, elem)))
      case _ => Failed(s)
  }

  /** After a name: generic arguments, when they parse, and associated-type segments. */
  function ParseNamed(tab: Ctfe.Table, s: State, name: string): (g: Got)
    requires Within(s) && s.pos > 0
    ensures Within(g.s) && |g.s.toks| == |s.toks| && (g.Got? ==> g.s.pos >= s.pos)
    decreases |s.toks| - s.pos, 4
  {
    if At(s, Lt) then
      match ParseArgs(tab, Bump(s), [])
      case NoList(e) => Segments(e.(pos := s.pos), Named(name))
      case List(e, args) => Segments(ExpectGt(e), Generic(name, args))
    else Segments(s, Named(name))
  }

  function Segments(s: State, t: Type): (g: Got)
    requires Within(s)
    ensures Within(g.s) && |g.s.toks| == |s.toks| && (g.Got? ==> g.s.pos >= s.pos)
    decreases |s.toks| - s.pos
  {
    if !At(s, ColonColon) then Got(s, t)
    else if !AtName(Bump(s)) then Failed(Bump(s))
    else Segments(Bump(Bump(s)), AssocPath(t, s.toks[s.pos + 1].text))
  }

  datatype ArgList = NoList(s: State) | List(s: State, args: seq<Type>)

  /** Arguments up to something that can close them. */
  function ParseArgs(tab: Ctfe.Table, s: State, args: seq<Type>): (g: ArgList)
    requires Within(s)
    ensures Within(g.s) && |g.s.toks| == |s.toks| && (g.List? ==> g.s.pos > s.pos)
    decreases |s.toks| - s.pos, 4
  {
    match ParseType(tab, s)
    case Failed(e) => NoList(e)
    case Got(e, t) =>
      if At(e, Comma) then ParseArgs(tab, Bump(e), args + [t])
      else if At(e, Gt) || At(e, Shr) then List(e, args + [t])
      else NoList(e)
  }
}
