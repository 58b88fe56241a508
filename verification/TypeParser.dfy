/** The type parser as it runs: a position that moves and goes back, over tokens of which
    a `>>` is rewritten in place. */
module TypeParser {
  import opened Options
  import opened ParserTokens
  import opened TypeSyntax
  import Ctfe
  import Folding
  import Folder

  class Parser {
    const tab: Ctfe.Table
    var toks: seq<Kind>
    var pos: nat

    ghost predicate Valid()
      reads this
    {
      pos <= |toks|
    }

    function Now(): State
      reads this
    {
      State(toks, pos)
    }

    constructor (tab: Ctfe.Table, toks: seq<Kind>)
      ensures Valid() && this.tab == tab && Now() == State(toks, 0)
    {
      this.tab, this.toks, pos := tab, toks, 0;
    }

    /** A type was read and the parser stands behind it; or none was, and at least the
        tokens are as specified. */
    ghost predicate Agrees(g: Got, t: Option<Type>)
      reads this
    {
      && Valid() && toks == g.s.toks
      && (if t.Some? then g == Got(Now(), t.value) else g.Failed?)
    }

    predicate Sees(k: Kind)
      reads this
    {
      At(Now(), k)
    }

    method Eat(k: Kind) returns (ok: bool)
      requires Valid()
      modifies this`pos
      ensures Valid() && ok == old(Sees(k)) && pos == old(pos) + if ok then 1 else 0
    {
      ok := Sees(k);
      if ok { pos := pos + 1; }
    }

    /** `expect` for a `>`. */
    method ExpectClosing()
      requires Valid()
      modifies this
      ensures Valid() && Now() == ExpectGt(old(Now()))
    {
      if Sees(Gt) {
        pos := pos + 1;
      } else if Sees(Shr) {
        toks := toks[pos := Gt];
      }
    }

    method ParseMutness() returns (m: Mutness)
      requires Valid()
      modifies this`pos
      ensures Valid() && TakeMutness(old(Now())) == (Now(), m)
    {
      var ok := Eat(ThreadLocal);
      ok := Eat(Mut);
      if ok { return Mutable; }
      ok := Eat(Const);
      if !ok { ok := Eat(Constexpr); }
      m := if ok then Constant else Default;
    }

    method ParseType() returns (t: Option<Type>)
      requires Valid()
      modifies this
      ensures Agrees(TypeSyntax.ParseType(tab, old(Now())), t)
      decreases |toks| - pos, 3
    {
      t := ParseBase();
      if t.Some? && Sees(LParen) { t := None; }
    }

    method ParseBase() returns (t: Option<Type>)
      requires Valid()
      modifies this
      ensures Agrees(TypeSyntax.ParseBase(tab, old(Now())), t)
      decreases |toks| - pos, 2
    {
      hide TypeSyntax.ParsePointer, TypeSyntax.ParseBracket, TypeSyntax.ParseNamed, TypeSyntax.ParseWordPointer;
      if pos == |toks| { return None; }
      var k := toks[pos];
      match k
      case Raw => pos := pos + 1; t := ParseWordPointer(k);
      case Own => pos := pos + 1; t := ParseWordPointer(k);
      case Amp => pos := pos + 1; t := ParsePointer(k);
      case Star => pos := pos + 1; t := ParsePointer(k);
      case LBracket => pos := pos + 1; t := ParseBracket();
      case UnitWord => pos := pos + 1; t := Some(Named("unit"));
      case Name(n) => pos := pos + 1; t := ParseNamed(n);
      case _ => t := None;
    }

    /** `raw *`, `own *` and `own &`, the word already read. */
    method ParseWordPointer(word: Kind) returns (t: Option<Type>)
      requires Valid() && (word == Raw || word == Own)
      modifies this
      ensures Agrees(TypeSyntax.ParseWordPointer(tab, old(Now()), word), t)
      decreases |toks| - pos, 5
    {
      hide TypeSyntax.ParsePointer;
      var star := Eat(Star);
      if star {
        t := ParsePointer(word);
        return;
      }
      if word == Raw { return None; }
      var amp := Eat(Amp);
      if !amp { return None; }
      t := ParsePointer(Percent);
    }

    method ParsePointer(sigil: Kind) returns (t: Option<Type>)
      requires Valid()
      modifies this
      ensures Agrees(TypeSyntax.ParsePointer(tab, old(Now()), sigil), t)
      decreases |toks| - pos, 4
    {
      var m := ParseMutness();
      var inner := ParseType();
      t := if inner.Some? then Some(Pointer(sigil, m, inner.value)) else None;
    }

    method ParseBracket() returns (t: Option<Type>)
      requires Valid()
      modifies this
      ensures Agrees(TypeSyntax.ParseBracket(tab, old(Now())), t)
      decreases |toks| - pos, 5
    {
      hide TypeSyntax.ParseType, Folding.FoldAddSub;
      var closed := Eat(RBracket);
      if closed {
        var m := Eat(Mut);
        var elem := ParseType();
        return if elem.Some? then Some(Slice(if m then Mutable else Default, elem.value)) else None;
      }
      var star := Eat(Star);
      if star {
        closed := Eat(RBracket);
        if !closed { return None; }
        var elem := ParseType();
        return if elem.Some? then Some(Vec(elem.value)) else None;
      }
      t := ParseArray();
    }

    /** The length is folded from the tokens ahead. */
    method ParseArray() returns (t: Option<Type>)
      requires Valid() && !Sees(RBracket) && !Sees(Star)
      modifies this
      ensures Agrees(TypeSyntax.ParseBracket(tab, old(Now())), t)
      decreases |toks| - pos, 4
    {
      hide TypeSyntax.ParseType, Folding.FoldAddSub, TypeSyntax.ParseBracket;
      ghost var start := Now();
      NoLength(tab, start);
      var n := FoldLength();
      if n.None? { return None; }
      WithLength(tab, start, n.value, Now());
      var closed := Eat(RBracket);
      if !closed { return None; }
      var elem := ParseType();
      t := if elem.Some? then Some(Array(n.value, elem.value)) else None;
    }

    /** The length, the position moved behind it. */
    method FoldLength() returns (n: Option<Ctfe.I64>)
      requires Valid()
      modifies this`pos
      ensures Valid() && (n.None? ==> pos == old(pos)) && (n.Some? ==> pos > old(pos))
      ensures n.Some? <==> Folding.FoldAddSub(tab, old(Ahead(Now()))).Folded?
      ensures n.Some? ==> Folding.FoldAddSub(tab, old(Ahead(Now()))) == Folding.Folded(n.value, Ahead(Now()))
    {
      hide Folding.FoldAddSub;
      var reader := new Folder.Reader(tab, toks[pos..]);
      var a := reader.FoldAddSub();
      if !a.Got? { return None; }
      assert |reader.Ahead()| < |toks[pos..]|;
      assert reader.Ahead() == toks[pos..][reader.pos..] == toks[pos + reader.pos..];
      pos := pos + reader.pos;
      n := Some(a.value);
    }

    /** Generic arguments are tried; if they do not parse the position goes back, but a
        `>>` split on the way stays split. */
    method ParseNamed(name: string) returns (t: Option<Type>)
      requires Valid() && pos > 0
      modifies this
      ensures Agrees(TypeSyntax.ParseNamed(tab, old(Now()), name), t)
      decreases |toks| - pos, 4
    {
      hide TypeSyntax.ParseArgs, Segments;
      var head := Named(name);
      var save := pos;
      var open := Eat(Lt);
      if open {
        var args := ParseArgs();
        if args.Some? {
          ExpectClosing();
          head := Generic(name, args.value);
        } else {
          pos := save;
        }
      }
      t := ParseSegments(head);
    }

    method ParseSegments(head: Type) returns (t: Option<Type>)
      requires Valid()
      modifies this`pos
      ensures Agrees(Segments(old(Now()), head), t)
    {
      var path := head;
      while Sees(ColonColon)
        invariant Valid() && Segments(old(Now()), head) == Segments(Now(), path)
        decreases |toks| - pos
      {
        if !AtName(Bump(Now())) { return None; }
        path := AssocPath(path, toks[pos + 1].text);
        pos := pos + 2;
      }
      t := Some(path);
    }

    method ParseArgs() returns (args: Option<seq<Type>>)
      requires Valid()
      modifies this
      ensures Valid() && toks == TypeSyntax.ParseArgs(tab, old(Now()), []).s.toks
      ensures args.Some? ==> TypeSyntax.ParseArgs(tab, old(Now()), []) == List(Now(), args.value)
      ensures args.None? ==> TypeSyntax.ParseArgs(tab, old(Now()), []).NoList?
      decreases |toks| - pos, 4
    {
      var list: seq<Type> := [];
      while true
        invariant Valid() && |toks| == old(|toks|) && pos >= old(pos)
        invariant TypeSyntax.ParseArgs(tab, old(Now()), []) == TypeSyntax.ParseArgs(tab, Now(), list)
        decreases |toks| - pos
      {
        var t := ParseType();
        if t.None? { return None; }
        list := list + [t.value];
        var comma := Eat(Comma);
        if !comma {
          return if Sees(Gt) || Sees(Shr) then Some(list) else None;
        }
      }
    }
  }

  /** The array branch: a length that does not fold, and one that does. */
  lemma NoLength(tab: Ctfe.Table, s: State)
    requires Within(s) && !At(s, RBracket) && !At(s, Star)
    ensures !Folding.FoldAddSub(tab, Ahead(s)).Folded? ==> TypeSyntax.ParseBracket(tab, s) == Failed(s)
  {
    hide TypeSyntax.ParseType, Folding.FoldAddSub;
  }

  lemma WithLength(tab: Ctfe.Table, s: State, n: Ctfe.I64, next: State)
    requires Within(s) && !At(s, RBracket) && !At(s, Star)
    requires Within(next) && next.toks == s.toks && Folding.FoldAddSub(tab, Ahead(s)) == Folding.Folded(n, Ahead(next))
    ensures !At(next, RBracket) ==> TypeSyntax.ParseBracket(tab, s) == Failed(next)
    ensures At(next, RBracket) ==>
            var g := TypeSyntax.ParseType(tab, Bump(next));
            TypeSyntax.ParseBracket(tab, s) == if g.Got? then Got(g.s, Array(n, g.t)) else Failed(g.s)
  {
    hide TypeSyntax.ParseType, Folding.FoldAddSub;
    assert next == s.(pos := |s.toks| - |Ahead(next)|);
  }
}
