/** Reading the tokens of a printed type gives the type back, at any nesting depth. */
module TypeRoundTrip {
  import opened Options
  import opened ParserTokens
  import opened TypeSyntax
  import Ctfe
  import Folding

  /** Types the printer writes and the parser reads: names are identifiers, a generic has
      arguments, only named types have segments, no reference stands directly under
      another default one, lengths are numbers of the source language. */
  predicate Printable(t: Type, reserved: set<string>) {
    match t
    case Named(n) => n == "unit" || IsName(n, reserved)
    case Generic(n, args) => IsName(n, reserved) && |args| > 0 && forall a | a in args :: Printable(a, reserved)
    case AssocPath(base, segment) =>
      IsName(segment, reserved) && IsPath(base) && Printable(base, reserved)
    case Ref(m, i) => m != Constant && !(m == Default && i.Ref?) && Printable(i, reserved)
    case Ptr(m, i) => m != Constant && Printable(i, reserved)
    case RawPtr(m, i) => m != Constant && Printable(i, reserved)
    case OwnPtr(m, i) => m != Constant && Printable(i, reserved)
    case Heap(i) => !i.Ref? && Printable(i, reserved)
    case Array(n, e) => 0 <= n <= Ctfe.MAX64 && Printable(e, reserved)
    case Slice(m, e) => m != Constant && Printable(e, reserved)
    case Vec(e) => Printable(e, reserved)
  }

  predicate IsName(n: string, reserved: set<string>) {
    && |n| > 0 && LexSpec.IsIdentStart(n[0]) && (forall c | c in n :: LexSpec.IsIdentCont(c))
    && WordKind(n, reserved) == Name(n)
  }

  predicate IsPath(t: Type) {
    (t.Named? && t.name != "unit") || t.Generic? || t.AssocPath?
  }

  // ------------------------------------------------------------------ closing brackets

  /** How many generics close at the very end of the type. */
  function Owns(t: Type): nat {
    match t
    case Generic(_, args) => if |args| > 0 then 1 + Owns(args[|args| - 1]) else 1
    case Ref(_, i) => Owns(i)
    case Ptr(_, i) => Owns(i)
    case RawPtr(_, i) => Owns(i)
    case OwnPtr(_, i) => Owns(i)
    case Heap(i) => Owns(i)
    case Array(_, e) => Owns(e)
    case Slice(_, e) => Owns(e)
    case Vec(e) => Owns(e)
    case _ => 0
  }

  predicate Closers(cs: seq<Kind>) {
    forall c | c in cs :: c == Gt || c == Shr
  }

  function Count(cs: seq<Kind>): nat {
    if |cs| == 0 then 0 else (if cs[0] == Shr then 2 else 1) + Count(cs[1..])
  }

  /** The closers after `n` brackets have been taken off, splitting `>>` where needed. */
  function Drop(cs: seq<Kind>, n: nat): seq<Kind>
    decreases n
  {
    if n == 0 || |cs| == 0 then cs
    else Drop(if cs[0] == Shr then [Gt] + cs[1..] else cs[1..], n - 1)
  }

  /** `n` closing brackets as the lexer pairs them. */
  function Shuts(n: nat): seq<Kind> {
    if n == 0 then [] else if n == 1 then [Gt] else [Shr] + Shuts(n - 2)
  }

  lemma {:induction false} ShutsAre(n: nat)
    ensures Closers(Shuts(n)) && Count(Shuts(n)) == n
  {
    if n >= 2 {
      ShutsAre(n - 2);
      assert ([Shr] + Shuts(n - 2))[1..] == Shuts(n - 2);
    }
  }

  lemma DropOne(cs: seq<Kind>)
    requires Closers(cs) && Count(cs) > 0
    ensures |cs| > 0 && Closers(Drop(cs, 1)) && Count(Drop(cs, 1)) == Count(cs) - 1
  {
    var rest := cs[1..];
    assert cs[0] in cs && forall c | c in rest :: c in cs;
    if cs[0] == Shr {
      assert ([Gt] + rest)[1..] == rest;
      assert Drop(cs, 1) == Drop([Gt] + rest, 0);
    } else {
      assert Drop(cs, 1) == Drop(rest, 0);
    }
  }

  lemma {:induction false} DropMore(cs: seq<Kind>, n: nat)
    requires Closers(cs) && Count(cs) >= n
    ensures Closers(Drop(cs, n)) && Count(Drop(cs, n)) == Count(cs) - n
    ensures n > 0 ==> Drop(cs, n) == Drop(Drop(cs, n - 1), 1)
    decreases n
  {
    if n > 0 {
      DropOne(cs);
      var next := Drop(cs, 1);
      DropMore(next, n - 1);
      assert Drop(cs, n) == Drop(next, n - 1);
      if n > 1 { assert Drop(cs, n - 1) == Drop(next, n - 2); }
    }
  }

  lemma CountZero(cs: seq<Kind>)
    requires Count(cs) == 0
    ensures cs == []
  {
  }

  lemma ShutsGone(n: nat)
    ensures Drop(Shuts(n), n) == []
  {
    ShutsAre(n);
    DropMore(Shuts(n), n);
    CountZero(Drop(Shuts(n), n));
  }

  // --------------------------------------------------------------- the tokens of a type

  function MutKinds(m: Mutness): seq<Kind> {
    if m == Mutable then [Mut] else []
  }

  /** The words in front of a type that say whether it can be written to. */
  predicate IsMutness(k: Kind) {
    k == Mut || k == Const || k == Constexpr || k == ThreadLocal
  }

  /** The tokens of a type without the closers at its end. */
  function Body(t: Type): seq<Kind>
    decreases t, 0
  {
    match t
    case Named(n) => [if n == "unit" then UnitWord else Name(n)]
    case Generic(n, args) => [Name(n)] + ([Lt] + ArgBodies(args))
    case AssocPath(base, segment) => Body(base) + (Shuts(Owns(base)) + ([ColonColon] + [Name(segment)]))
    case Ref(m, i) => [Amp] + (MutKinds(m) + Body(i))
    case Ptr(m, i) => [Star] + (MutKinds(m) + Body(i))
    case RawPtr(m, i) => [Raw] + ([Star] + (MutKinds(m) + Body(i)))
    case OwnPtr(m, i) => [Own] + ([Star] + (MutKinds(m) + Body(i)))
    case Heap(i) => [Own] + ([Amp] + Body(i))
    case Array(n, e) => [LBracket] + ([Num(n)] + ([RBracket] + Body(e)))
    case Slice(m, e) => [LBracket] + ([RBracket] + (MutKinds(m) + Body(e)))
    case Vec(e) => [LBracket] + ([Star] + ([RBracket] + Body(e)))
  }

  function ArgBodies(ts: seq<Type>): seq<Kind>
    decreases ts
  {
    if |ts| == 0 then []
    else if |ts| == 1 then Body(ts[0])
    else Body(ts[0]) + (Shuts(Owns(ts[0])) + ([Comma] + ArgBodies(ts[1..])))
  }

  // --------------------------------------------------------------------- parser states

  lemma Step(s: State, k: Kind, tail: seq<Kind>)
    requires Within(s) && Ahead(s) == [k] + tail
    ensures At(s, k) && s.toks[s.pos] == k && Within(Bump(s)) && Ahead(Bump(s)) == tail
    ensures forall other :: At(s, other) ==> other == k
  {
    assert s.toks[s.pos] == Ahead(s)[0] == k;
    assert Ahead(Bump(s)) == Ahead(s)[1..];
  }

  lemma TwoSteps(s: State, a: Kind, b: Kind, tail: seq<Kind>) returns (n: State)
    requires Within(s) && Ahead(s) == [a] + ([b] + tail)
    ensures At(s, a) && At(Bump(s), b) && n == Bump(Bump(s)) && Within(n) && Ahead(n) == tail
  {
    Step(s, a, [b] + tail);
    Step(Bump(s), b, tail);
    n := Bump(Bump(s));
  }

  lemma ExpectTakes(s: State, cs: seq<Kind>, rest: seq<Kind>)
    requires Within(s) && Closers(cs) && Count(cs) > 0 && Ahead(s) == cs + rest
    ensures Ahead(ExpectGt(s)) == Drop(cs, 1) + rest && (At(s, Gt) || At(s, Shr))
  {
    DropOne(cs);
    assert cs[0] in cs;
    var tail := cs[1..];
    assert Ahead(s) == [cs[0]] + (tail + rest);
    Step(s, cs[0], tail + rest);
    if cs[0] == Shr {
      assert Drop(cs, 1) == Drop([Gt] + tail, 0) == [Gt] + tail;
      assert Ahead(ExpectGt(s)) == [Gt] + (tail + rest);
    } else {
      assert Drop(cs, 1) == Drop(tail, 0) == tail;
    }
  }

  /** What may follow a type: nothing that would make it longer. */
  predicate Ends(x: seq<Kind>) {
    |x| == 0 || (x[0] != LParen && x[0] != ColonColon && x[0] != Lt)
  }

  lemma ClosersEnd(cs: seq<Kind>, rest: seq<Kind>)
    requires Closers(cs) && (Ends(rest) || |cs| > 0)
    ensures Ends(cs + rest)
  {
    if |cs| > 0 { assert cs[0] in cs; }
  }

  lemma NotAt(s: State, k: Kind)
    requires Within(s) && (|Ahead(s)| > 0 ==> Ahead(s)[0] != k)
    ensures !At(s, k)
  {
    if s.pos < |s.toks| { assert s.toks[s.pos] == Ahead(s)[0]; }
  }

  // -------------------------------------------------------------------------- round trip

  lemma FoldNumber(tab: Ctfe.Table, n: int, tail: seq<Kind>)
    requires 0 <= n <= Ctfe.MAX64
    ensures Folding.FoldAddSub(tab, [Num(n)] + ([RBracket] + tail)) == Folding.Folded(n, [RBracket] + tail)
  {
    var rest := [RBracket] + tail;
    var ts := [Num(n)] + rest;
    assert ts[1..] == rest;
    assert Folding.FoldAtom(tab, ts) == Folding.Folded(n, rest);
    assert Folding.FoldMulRest(tab, n, rest) == Folding.Folded(n, rest);
    assert Folding.FoldMulDiv(tab, ts) == Folding.Folded(n, rest);
  }

  lemma {:induction false} TypeParses(tab: Ctfe.Table, t: Type, reserved: set<string>, cs: seq<Kind>, rest: seq<Kind>, s: State)
    requires Printable(t, reserved) && Closers(cs) && Count(cs) >= Owns(t)
    requires Within(s) && Ahead(s) == Body(t) + (cs + rest) && Ends(Drop(cs, Owns(t)) + rest)
    ensures var g := ParseType(tab, s);
            g.Got? && g.t == t && Ahead(g.s) == Drop(cs, Owns(t)) + rest
    decreases t, 3
  {
    BaseParses(tab, t, reserved, cs, rest, s);
    NotAt(ParseBase(tab, s).s, LParen);
  }

  lemma {:induction false} BaseParses(tab: Ctfe.Table, t: Type, reserved: set<string>, cs: seq<Kind>, rest: seq<Kind>, s: State)
    requires Printable(t, reserved) && Closers(cs) && Count(cs) >= Owns(t)
    requires Within(s) && Ahead(s) == Body(t) + (cs + rest) && Ends(Drop(cs, Owns(t)) + rest)
    ensures var g := ParseBase(tab, s);
            g.Got? && g.t == t && Ahead(g.s) == Drop(cs, Owns(t)) + rest
    decreases t, 2
  {
    if IsPath(t) {
      var e := PathParses(tab, t, reserved, cs, rest, s);
      NotAt(e, ColonColon);
    } else if t.Named? {
      Step(s, UnitWord, cs + rest);
    } else if t.Array? {
      ArrayParses(tab, t, reserved, cs, rest, s);
    } else if t.Slice? {
      SliceParses(tab, t, reserved, cs, rest, s);
    } else if t.Vec? {
      VecParses(tab, t, reserved, cs, rest, s);
    } else if t.Ref? || t.Ptr? {
      PointerParses(tab, t, reserved, cs, rest, s);
    } else if t.Heap? {
      HeapParses(tab, t, reserved, cs, rest, s);
    } else {
      WordPointerParses(tab, t, reserved, cs, rest, s);
    }
  }

  lemma {:induction false} BodyStarts(t: Type, reserved: set<string>)
    requires Printable(t, reserved)
    ensures |Body(t)| > 0 && !IsMutness(Body(t)[0]) && Body(t)[0] != Lt
    decreases t
  {
    if t.AssocPath? { BodyStarts(t.base, reserved); }
  }

  // Brackets between sequences, moved to the right.

  lemma Glue(a: Kind, b: seq<Kind>, c: seq<Kind>)
    ensures [a] + b + c == [a] + (b + c)
  {
  }

  lemma Glue2(a: Kind, b: Kind, c: seq<Kind>, d: seq<Kind>)
    ensures [a] + ([b] + c) + d == [a] + ([b] + (c + d))
  {
  }

  lemma Glue3(a: Kind, b: Kind, x: Kind, c: seq<Kind>, d: seq<Kind>)
    ensures [a] + ([b] + ([x] + c)) + d == [a] + ([b] + ([x] + (c + d)))
  {
  }

  // The parser, one constructor at a time.

  lemma BaseIsPointer(tab: Ctfe.Table, s: State, sigil: Kind)
    requires Within(s) && At(s, sigil) && (sigil == Amp || sigil == Star)
    ensures ParseBase(tab, s) == ParsePointer(tab, Bump(s), sigil)
  {
  }

  lemma BaseIsWordPointer(tab: Ctfe.Table, s: State, word: Kind, sigil: Kind)
    requires Within(s) && At(s, word) && At(Bump(s), sigil)
    requires (word == Raw && sigil == Star) || (word == Own && (sigil == Star || sigil == Amp))
    ensures ParseBase(tab, s) == ParsePointer(tab, Bump(Bump(s)), if word == Raw then Raw else if sigil == Amp then Percent else Own)
  {
    hide ParsePointer, ParseType, ParseBracket, ParseNamed;
    BaseIsWord(tab, s, word);
  }

  lemma BaseIsWord(tab: Ctfe.Table, s: State, word: Kind)
    requires Within(s) && At(s, word) && (word == Raw || word == Own)
    ensures ParseBase(tab, s) == ParseWordPointer(tab, Bump(s), word)
  {
    hide ParseWordPointer, ParsePointer, ParseType, ParseBracket, ParseNamed;
  }

  lemma BaseIsBracket(tab: Ctfe.Table, s: State)
    requires Within(s) && At(s, LBracket)
    ensures ParseBase(tab, s) == ParseBracket(tab, Bump(s))
  {
  }

  lemma BracketIsVec(tab: Ctfe.Table, s: State)
    requires Within(s) && At(s, Star) && At(Bump(s), RBracket)
    requires ParseType(tab, Bump(Bump(s))).Got?
    ensures var g := ParseType(tab, Bump(Bump(s))); ParseBracket(tab, s) == Got(g.s, Vec(g.t))
  {
  }

  lemma BracketIsSlice(tab: Ctfe.Table, s: State, m: bool)
    requires Within(s) && At(s, RBracket) && m == At(Bump(s), Mut)
    requires ParseType(tab, if m then Bump(Bump(s)) else Bump(s)).Got?
    ensures var g := ParseType(tab, if m then Bump(Bump(s)) else Bump(s));
            ParseBracket(tab, s) == Got(g.s, Slice(if m then Mutable else Default, g.t))
  {
  }

  lemma BracketIsArray(tab: Ctfe.Table, s: State, n: int, tail: seq<Kind>)
    requires Within(s) && 0 <= n <= Ctfe.MAX64 && Ahead(s) == [Num(n)] + ([RBracket] + tail)
    requires Within(Bump(Bump(s))) && Ahead(Bump(Bump(s))) == tail && ParseType(tab, Bump(Bump(s))).Got?
    ensures var g := ParseType(tab, Bump(Bump(s))); ParseBracket(tab, s) == Got(g.s, Array(n, g.t))
  {
    FoldNumber(tab, n, tail);
    NotAt(s, RBracket);
    NotAt(s, Star);
    var next := Bump(s);
    Step(s, Num(n), [RBracket] + tail);
    Step(next, RBracket, tail);
    assert |Ahead(s)| == |s.toks| - s.pos;
    assert next == s.(pos := |s.toks| - |[RBracket] + tail|);
  }

  lemma PointerTakes(tab: Ctfe.Table, s: State, sigil: Kind, m: Mutness, inner: State)
    requires Within(s) && TakeMutness(s) == (inner, m) && ParseType(tab, inner).Got?
    ensures var g := ParseType(tab, inner); ParsePointer(tab, s, sigil) == Got(g.s, Pointer(sigil, m, g.t))
  {
  }

  lemma MutnessTaken(s: State, m: Mutness, inner: seq<Kind>) returns (n: State)
    requires m != Constant && Within(s) && Ahead(s) == MutKinds(m) + inner
    requires |inner| > 0 && !IsMutness(inner[0])
    ensures TakeMutness(s) == (n, m) && Within(n) && Ahead(n) == inner
  {
    n := TakeMutness(s).0;
    if m == Mutable {
      Step(s, Mut, inner);
      NotAt(s, ThreadLocal);
    } else {
      assert Ahead(s) == inner;
      NotAt(s, ThreadLocal);
      NotAt(s, Mut);
      NotAt(s, Const);
      NotAt(s, Constexpr);
    }
  }

  /** A pointer once its sigil is read. */
  lemma {:induction false} PointerAfter(tab: Ctfe.Table, m: Mutness, i: Type, reserved: set<string>, cs: seq<Kind>, rest: seq<Kind>,
                                        s: State, sigil: Kind)
    requires m != Constant && Printable(i, reserved) && Closers(cs) && Count(cs) >= Owns(i)
    requires Within(s) && Ahead(s) == MutKinds(m) + (Body(i) + (cs + rest)) && Ends(Drop(cs, Owns(i)) + rest)
    ensures var g := ParsePointer(tab, s, sigil);
            g.Got? && g.t == Pointer(sigil, m, i) && Ahead(g.s) == Drop(cs, Owns(i)) + rest
    decreases i, 4
  {
    hide ParseBase, ParseType, ParsePointer, ParseArgs, Drop;
    BodyStarts(i, reserved);
    var n := MutnessTaken(s, m, Body(i) + (cs + rest));
    TypeParses(tab, i, reserved, cs, rest, n);
    PointerTakes(tab, s, sigil, m, n);
  }

  lemma MutGlue(a: seq<Kind>, m: Mutness, b: seq<Kind>, c: seq<Kind>)
    ensures a + (MutKinds(m) + b) + c == a + (MutKinds(m) + (b + c))
  {
  }

  lemma {:induction false} PointerParses(tab: Ctfe.Table, t: Type, reserved: set<string>, cs: seq<Kind>, rest: seq<Kind>, s: State)
    requires t.Ref? || t.Ptr?
    requires Printable(t, reserved) && Closers(cs) && Count(cs) >= Owns(t)
    requires Within(s) && Ahead(s) == Body(t) + (cs + rest) && Ends(Drop(cs, Owns(t)) + rest)
    ensures var g := ParseBase(tab, s);
            g.Got? && g.t == t && Ahead(g.s) == Drop(cs, Owns(t)) + rest
    decreases t, 1
  {
    hide ParseBase, ParseType, ParsePointer, ParseArgs, Drop;
    var sigil := if t.Ref? then Amp else Star;
    MutGlue([sigil], t.mutness, Body(t.inner), cs + rest);
    Step(s, sigil, MutKinds(t.mutness) + (Body(t.inner) + (cs + rest)));
    BaseIsPointer(tab, s, sigil);
    PointerAfter(tab, t.mutness, t.inner, reserved, cs, rest, Bump(s), sigil);
  }

  lemma {:induction false} WordPointerParses(tab: Ctfe.Table, t: Type, reserved: set<string>, cs: seq<Kind>, rest: seq<Kind>, s: State)
    requires t.RawPtr? || t.OwnPtr?
    requires Printable(t, reserved) && Closers(cs) && Count(cs) >= Owns(t)
    requires Within(s) && Ahead(s) == Body(t) + (cs + rest) && Ends(Drop(cs, Owns(t)) + rest)
    ensures var g := ParseBase(tab, s);
            g.Got? && g.t == t && Ahead(g.s) == Drop(cs, Owns(t)) + rest
    decreases t, 1
  {
    hide ParseBase, ParseType, ParsePointer, ParseArgs, Drop, Closers, Count, Ends, Body, Owns, Printable, MutKinds;
    WordBody(t, reserved);
    var word := if t.RawPtr? then Raw else Own;
    var after := MutKinds(t.mutness) + (Body(t.inner) + (cs + rest));
    WordGlue(word, Star, t.mutness, Body(t.inner), cs + rest);
    var n := TwoSteps(s, word, Star, after);
    BaseIsWordPointer(tab, s, word, Star);
    PointerAfter(tab, t.mutness, t.inner, reserved, cs, rest, n, word);
  }

  lemma WordBody(t: Type, reserved: set<string>)
    requires (t.RawPtr? || t.OwnPtr?) && Printable(t, reserved)
    ensures Body(t) == [if t.RawPtr? then Raw else Own] + ([Star] + (MutKinds(t.mutness) + Body(t.inner)))
    ensures Owns(t) == Owns(t.inner) && t.mutness != Constant && Printable(t.inner, reserved)
  {
  }

  lemma WordGlue(a: Kind, b: Kind, m: Mutness, c: seq<Kind>, d: seq<Kind>)
    ensures [a] + ([b] + (MutKinds(m) + c)) + d == [a] + ([b] + (MutKinds(m) + (c + d)))
  {
  }

  lemma {:induction false} HeapParses(tab: Ctfe.Table, t: Type, reserved: set<string>, cs: seq<Kind>, rest: seq<Kind>, s: State)
    requires t.Heap? && Printable(t, reserved) && Closers(cs) && Count(cs) >= Owns(t)
    requires Within(s) && Ahead(s) == Body(t) + (cs + rest) && Ends(Drop(cs, Owns(t)) + rest)
    ensures var g := ParseBase(tab, s);
            g.Got? && g.t == t && Ahead(g.s) == Drop(cs, Owns(t)) + rest
    decreases t, 1
  {
    hide ParseBase, ParseType, ParsePointer, ParseArgs, Drop;
    var after := Body(t.inner) + (cs + rest);
    Glue2(Own, Amp, Body(t.inner), cs + rest);
    var n := TwoSteps(s, Own, Amp, after);
    BaseIsWordPointer(tab, s, Own, Amp);
    assert MutKinds(Default) + after == after;
    PointerAfter(tab, Default, t.inner, reserved, cs, rest, n, Percent);
  }

  lemma {:induction false} VecParses(tab: Ctfe.Table, t: Type, reserved: set<string>, cs: seq<Kind>, rest: seq<Kind>, s: State)
    requires t.Vec? && Printable(t, reserved) && Closers(cs) && Count(cs) >= Owns(t)
    requires Within(s) && Ahead(s) == Body(t) + (cs + rest) && Ends(Drop(cs, Owns(t)) + rest)
    ensures var g := ParseBase(tab, s);
            g.Got? && g.t == t && Ahead(g.s) == Drop(cs, Owns(t)) + rest
    decreases t, 1
  {
    hide ParseBase, ParseType, ParsePointer, ParseArgs, Drop;
    var after := Body(t.elem) + (cs + rest);
    Glue3(LBracket, Star, RBracket, Body(t.elem), cs + rest);
    Step(s, LBracket, [Star] + ([RBracket] + after));
    Step(Bump(s), Star, [RBracket] + after);
    Step(Bump(Bump(s)), RBracket, after);
    TypeParses(tab, t.elem, reserved, cs, rest, Bump(Bump(Bump(s))));
    BracketIsVec(tab, Bump(s));
    BaseIsBracket(tab, s);
  }

  lemma {:induction false} SliceParses(tab: Ctfe.Table, t: Type, reserved: set<string>, cs: seq<Kind>, rest: seq<Kind>, s: State)
    requires t.Slice? && Printable(t, reserved) && Closers(cs) && Count(cs) >= Owns(t)
    requires Within(s) && Ahead(s) == Body(t) + (cs + rest) && Ends(Drop(cs, Owns(t)) + rest)
    ensures var g := ParseBase(tab, s);
            g.Got? && g.t == t && Ahead(g.s) == Drop(cs, Owns(t)) + rest
    decreases t, 1
  {
    hide ParseBase, ParseType, ParsePointer, ParseArgs, Drop;
    var elem := Body(t.elem) + (cs + rest);
    WordGlue(LBracket, RBracket, t.mutness, Body(t.elem), cs + rest);
    var inside := TwoSteps(s, LBracket, RBracket, MutKinds(t.mutness) + elem);
    BodyStarts(t.elem, reserved);
    var n := MutnessTaken(inside, t.mutness, elem);
    TypeParses(tab, t.elem, reserved, cs, rest, n);
    BracketIsSlice(tab, Bump(s), t.mutness == Mutable);
    BaseIsBracket(tab, s);
  }

  lemma {:induction false} ArrayParses(tab: Ctfe.Table, t: Type, reserved: set<string>, cs: seq<Kind>, rest: seq<Kind>, s: State)
    requires t.Array? && Printable(t, reserved) && Closers(cs) && Count(cs) >= Owns(t)
    requires Within(s) && Ahead(s) == Body(t) + (cs + rest) && Ends(Drop(cs, Owns(t)) + rest)
    ensures var g := ParseBase(tab, s);
            g.Got? && g.t == t && Ahead(g.s) == Drop(cs, Owns(t)) + rest
    decreases t, 1
  {
    hide ParseBase, ParseType, ParsePointer, ParseArgs, Drop;
    var after := Body(t.elem) + (cs + rest);
    Glue3(LBracket, Num(t.len), RBracket, Body(t.elem), cs + rest);
    Step(s, LBracket, [Num(t.len)] + ([RBracket] + after));
    Step(Bump(s), Num(t.len), [RBracket] + after);
    Step(Bump(Bump(s)), RBracket, after);
    TypeParses(tab, t.elem, reserved, cs, rest, Bump(Bump(Bump(s))));
    BracketIsArray(tab, Bump(s), t.len, after);
    BaseIsBracket(tab, s);
  }

  // ---------------------------------------------------------------------- named types

  /** A named type is read up to the point where segments could follow. */
  lemma {:induction false} PathParses(tab: Ctfe.Table, t: Type, reserved: set<string>, cs: seq<Kind>, rest: seq<Kind>, s: State)
    returns (e: State)
    requires IsPath(t) && Printable(t, reserved) && Closers(cs) && Count(cs) >= Owns(t)
    requires Within(s) && Ahead(s) == Body(t) + (cs + rest) && NoAngle(Drop(cs, Owns(t)) + rest)
    ensures Within(e) && ParseBase(tab, s) == Segments(e, t) && Ahead(e) == Drop(cs, Owns(t)) + rest
    decreases t, 1
  {
    match t
    case Named(n) =>
      Step(s, Name(n), cs + rest);
      e := Bump(s);
      NotAt(e, Lt);
      BaseIsName(tab, s, n);
    case Generic(n, args) =>
      e := GenericParses(tab, n, args, reserved, cs, rest, s);
    case AssocPath(base, segment) =>
      ShutsAre(Owns(base));
      ShutsGone(Owns(base));
      var segs := [ColonColon] + ([Name(segment)] + (cs + rest));
      SegGlue(Body(base), Shuts(Owns(base)), ColonColon, Name(segment), cs + rest);
      assert [] + segs == segs;
      var b := PathParses(tab, base, reserved, Shuts(Owns(base)), segs, s);
      Step(b, ColonColon, [Name(segment)] + (cs + rest));
      Step(Bump(b), Name(segment), cs + rest);
      e := Bump(Bump(b));
      TakesSegment(b, base, segment);
  }

  lemma SegGlue(a: seq<Kind>, b: seq<Kind>, x: Kind, y: Kind, c: seq<Kind>)
    ensures a + (b + ([x] + [y])) + c == a + (b + ([x] + ([y] + c)))
  {
  }

  lemma TakesSegment(s: State, t: Type, segment: string)
    requires Within(s) && At(s, ColonColon) && At(Bump(s), Name(segment))
    ensures Segments(s, t) == Segments(Bump(Bump(s)), AssocPath(t, segment))
  {
  }

  lemma BaseIsName(tab: Ctfe.Table, s: State, n: string)
    requires Within(s) && At(s, Name(n)) && !At(Bump(s), Lt)
    ensures ParseBase(tab, s) == Segments(Bump(s), Named(n))
  {
    assert ParseBase(tab, s) == ParseNamed(tab, Bump(s), n);
  }

  lemma BaseIsGeneric(tab: Ctfe.Table, s: State, n: string, e: State, args: seq<Type>)
    requires Within(s) && At(s, Name(n)) && At(Bump(s), Lt) && ParseArgs(tab, Bump(Bump(s)), []) == List(e, args)
    ensures ParseBase(tab, s) == Segments(ExpectGt(e), Generic(n, args))
  {
    assert ParseBase(tab, s) == ParseNamed(tab, Bump(s), n);
  }

  predicate NoAngle(x: seq<Kind>) {
    |x| == 0 || x[0] != Lt
  }

  /** The bracket of the generic itself comes off after those of its last argument. */
  lemma Closes(s: State, cs: seq<Kind>, owns: nat, rest: seq<Kind>)
    requires Within(s) && Closers(cs) && Count(cs) > owns && Ahead(s) == Drop(cs, owns) + rest
    ensures Ahead(ExpectGt(s)) == Drop(cs, owns + 1) + rest
  {
    DropMore(cs, owns);
    DropMore(cs, owns + 1);
    ExpectTakes(s, Drop(cs, owns), rest);
  }

  lemma GenericBody(n: string, args: seq<Type>, reserved: set<string>)
    requires Printable(Generic(n, args), reserved)
    ensures |args| > 0 && forall t | t in args :: Printable(t, reserved)
    ensures Body(Generic(n, args)) == [Name(n)] + ([Lt] + ArgBodies(args))
    ensures Owns(Generic(n, args)) == Owns(args[|args| - 1]) + 1
  {
  }

  lemma {:induction false} GenericParses(tab: Ctfe.Table, n: string, args: seq<Type>, reserved: set<string>, cs: seq<Kind>, rest: seq<Kind>, s: State)
    returns (e: State)
    requires Printable(Generic(n, args), reserved) && Closers(cs) && Count(cs) >= Owns(Generic(n, args))
    requires Within(s) && Ahead(s) == Body(Generic(n, args)) + (cs + rest)
    ensures Within(e) && ParseBase(tab, s) == Segments(e, Generic(n, args))
    ensures Ahead(e) == Drop(cs, Owns(Generic(n, args))) + rest
    decreases args, 6
  {
    hide ParseBase, ParseType, ParsePointer, ParseArgs, Drop, Closers, Count, Segments, ExpectGt;
    hide Body, ArgBodies, Printable, Owns;
    GenericBody(n, args, reserved);
    var owns := Owns(args[|args| - 1]);
    var inside := ArgBodies(args) + (cs + rest);
    Glue2(Name(n), Lt, ArgBodies(args), cs + rest);
    var first := TwoSteps(s, Name(n), Lt, inside);
    var list := ArgsParse(tab, args, reserved, cs, rest, first, []);
    Closes(list, cs, owns, rest);
    e := ExpectGt(list);
    assert [] + args == args;
    BaseIsGeneric(tab, s, n, list, args);
  }

  lemma {:induction false} ArgsParse(tab: Ctfe.Table, ts: seq<Type>, reserved: set<string>, cs: seq<Kind>, rest: seq<Kind>, s: State, acc: seq<Type>)
    returns (e: State)
    requires |ts| > 0 && (forall t | t in ts :: Printable(t, reserved))
    requires Closers(cs) && Count(cs) > Owns(ts[|ts| - 1])
    requires Within(s) && Ahead(s) == ArgBodies(ts) + (cs + rest)
    ensures Within(e) && ParseArgs(tab, s, acc) == List(e, acc + ts) && Ahead(e) == Drop(cs, Owns(ts[|ts| - 1])) + rest
    decreases ts, 5
  {
    hide ParseBase, ParseType, ParsePointer, ParseArgs, Drop;
    if |ts| == 1 {
      assert ts == [ts[0]];
      e := LastArgParses(tab, ts[0], reserved, cs, rest, s, acc);
    } else {
      var more := ArgBodies(ts[1..]) + (cs + rest);
      CommaGlue(Body(ts[0]), Shuts(Owns(ts[0])), ArgBodies(ts[1..]), cs + rest);
      var first := FirstArgParses(tab, ts[0], reserved, more, s);
      Step(first, Comma, more);
      assert forall x | x in ts[1..] :: x in ts;
      e := ArgsParse(tab, ts[1..], reserved, cs, rest, Bump(first), acc + [ts[0]]);
      TakesComma(tab, s, acc);
      ListGlue(acc, ts);
    }
  }

  lemma ListGlue(acc: seq<Type>, ts: seq<Type>)
    requires |ts| > 0
    ensures acc + [ts[0]] + ts[1..] == acc + ts
  {
  }

  lemma CommaGlue(a: seq<Kind>, b: seq<Kind>, c: seq<Kind>, d: seq<Kind>)
    ensures a + (b + ([Comma] + c)) + d == a + (b + ([Comma] + (c + d)))
  {
  }

  lemma TakesComma(tab: Ctfe.Table, s: State, acc: seq<Type>)
    requires Within(s) && ParseType(tab, s).Got? && At(ParseType(tab, s).s, Comma)
    ensures var g := ParseType(tab, s); ParseArgs(tab, s, acc) == ParseArgs(tab, Bump(g.s), acc + [g.t])
  {
  }

  lemma TakesLast(tab: Ctfe.Table, s: State, acc: seq<Type>)
    requires Within(s) && ParseType(tab, s).Got?
    requires var e := ParseType(tab, s).s; !At(e, Comma) && (At(e, Gt) || At(e, Shr))
    ensures var g := ParseType(tab, s); ParseArgs(tab, s, acc) == List(g.s, acc + [g.t])
  {
  }

  lemma {:induction false} FirstArgParses(tab: Ctfe.Table, t: Type, reserved: set<string>, more: seq<Kind>, s: State)
    returns (e: State)
    requires Printable(t, reserved) && Within(s) && Ahead(s) == Body(t) + (Shuts(Owns(t)) + ([Comma] + more))
    ensures ParseType(tab, s) == Got(e, t) && Within(e) && Ahead(e) == [Comma] + more
    decreases t, 4
  {
    hide ParseBase, ParseType, ParsePointer, ParseArgs, Drop;
    ShutsAre(Owns(t));
    ShutsGone(Owns(t));
    assert [] + ([Comma] + more) == [Comma] + more;
    TypeParses(tab, t, reserved, Shuts(Owns(t)), [Comma] + more, s);
    e := ParseType(tab, s).s;
  }

  lemma {:induction false} LastArgParses(tab: Ctfe.Table, t: Type, reserved: set<string>, cs: seq<Kind>, rest: seq<Kind>, s: State, acc: seq<Type>)
    returns (e: State)
    requires Printable(t, reserved) && Closers(cs) && Count(cs) > Owns(t)
    requires Within(s) && Ahead(s) == Body(t) + (cs + rest)
    ensures Within(e) && ParseArgs(tab, s, acc) == List(e, acc + [t]) && Ahead(e) == Drop(cs, Owns(t)) + rest
    decreases t, 4
  {
    hide ParseBase, ParseType, ParsePointer, ParseArgs, Drop;
    var left := Drop(cs, Owns(t));
    DropMore(cs, Owns(t));
    DropOne(left);
    ClosersEnd(left, rest);
    TypeParses(tab, t, reserved, cs, rest, s);
    e := ParseType(tab, s).s;
    ExpectTakes(e, left, rest);
    NotComma(e, left, rest);
    TakesLast(tab, s, acc);
  }

  lemma NotComma(s: State, cs: seq<Kind>, rest: seq<Kind>)
    requires Within(s) && Closers(cs) && |cs| > 0 && Ahead(s) == cs + rest
    ensures !At(s, Comma)
  {
    assert cs[0] in cs && Ahead(s)[0] == cs[0];
    NotAt(s, Comma);
  }

  /** Parsing the tokens of a printed type, its closing brackets paired by the lexer,
      gives the type back and stops behind it. */
  lemma KindsRoundTrip(tab: Ctfe.Table, t: Type, reserved: set<string>, rest: seq<Kind>)
    requires Printable(t, reserved) && Ends(rest)
    ensures var g := ParseType(tab, State(Body(t) + (Shuts(Owns(t)) + rest), 0));
            g.Got? && g.t == t && Ahead(g.s) == rest
  {
    var s := State(Body(t) + (Shuts(Owns(t)) + rest), 0);
    assert Ahead(s) == s.toks;
    ShutsAre(Owns(t));
    ShutsGone(Owns(t));
    assert [] + rest == rest;
    TypeParses(tab, t, reserved, Shuts(Owns(t)), rest, s);
  }

  // ------------------------------------------------------------------- all qualifiers

  /** The ways to say that what is pointed to may be written, may not, or to say nothing. */
  predicate Spells(q: seq<Kind>, m: Mutness) {
    var word := if |q| > 0 && q[0] == ThreadLocal then q[1..] else q;
    if m == Mutable then word == [Mut] else if m == Constant then word == [Const] || word == [Constexpr] else word == []
  }

  /** The pointer types and the signs they are written with; an owned reference has no
      qualifier. */
  predicate Makes(first: Kind, second: Option<Kind>, m: Mutness, inner: Type, t: Type) {
    || (first == Amp && second == None && t == Ref(m, inner))
    || (first == Star && second == None && t == Ptr(m, inner))
    || (first == Raw && second == Some(Star) && t == RawPtr(m, inner))
    || (first == Own && second == Some(Star) && t == OwnPtr(m, inner))
    || (first == Own && second == Some(Amp) && t == Heap(inner))
  }

  function Signs(first: Kind, second: Option<Kind>, after: seq<Kind>): seq<Kind> {
    [first] + (if second.Some? then [second.value] + after else after)
  }

  lemma QualifierTaken(s: State, q: seq<Kind>, m: Mutness, inner: seq<Kind>) returns (n: State)
    requires Spells(q, m) && Within(s) && Ahead(s) == q + inner && |inner| > 0 && !IsMutness(inner[0])
    ensures TakeMutness(s) == (n, m) && Within(n) && Ahead(n) == inner
  {
    n := TakeMutness(s).0;
    var word, from := q, s;
    if |q| > 0 && q[0] == ThreadLocal {
      word := q[1..];
      assert q + inner == [ThreadLocal] + (word + inner);
      Step(s, ThreadLocal, word + inner);
      from := Bump(s);
    } else {
      assert q != [] ==> q + inner == [q[0]] + inner;
      NotAt(s, ThreadLocal);
    }
    if word == [] {
      assert word + inner == inner;
      NotAt(from, Mut);
      NotAt(from, Const);
      NotAt(from, Constexpr);
    } else {
      Step(from, word[0], inner);
    }
  }

  lemma SignsRead(tab: Ctfe.Table, first: Kind, second: Option<Kind>, m: Mutness, inner: Type, t: Type, s: State, after: seq<Kind>)
    returns (n: State, sigil: Kind)
    requires Makes(first, second, m, inner, t) && Within(s) && Ahead(s) == Signs(first, second, after)
    ensures Within(n) && Ahead(n) == after && ParseBase(tab, s) == ParsePointer(tab, n, sigil) && Pointer(sigil, m, inner) == t
  {
    hide ParseBase, ParsePointer, ParseWordPointer, Ahead;
    if second == None {
      Step(s, first, after);
      n, sigil := Bump(s), first;
      BaseIsPointer(tab, s, first);
    } else {
      var mark := second.value;
      n := TwoSteps(s, first, mark, after);
      BaseIsWordPointer(tab, s, first, mark);
      sigil := if first == Raw then Raw else if mark == Amp then Percent else Own;
    }
  }

  /** In front of any printable type, every pointer is read with every spelling of its
      qualifier. */
  lemma QualifiedParses(tab: Ctfe.Table, first: Kind, second: Option<Kind>, q: seq<Kind>, m: Mutness, inner: Type, t: Type,
                        reserved: set<string>, rest: seq<Kind>)
    requires Makes(first, second, m, inner, t) && Spells(q, m) && Printable(inner, reserved) && Ends(rest)
    ensures var g := ParseType(tab, State(Signs(first, second, q + (Body(inner) + (Shuts(Owns(inner)) + rest))), 0));
            g.Got? && g.t == t && Ahead(g.s) == rest
  {
    hide ParseBase, ParsePointer, TakeMutness, Body, Owns, Makes, Printable, Signs;
    var cs := Shuts(Owns(inner));
    var body := Body(inner) + (cs + rest);
    var s := State(Signs(first, second, q + body), 0);
    assert Ahead(s) == s.toks;
    var n, sigil := SignsRead(tab, first, second, m, inner, t, s, q + body);
    BodyStarts(inner, reserved);
    var e := QualifierTaken(n, q, m, body);
    ShutsAre(Owns(inner));
    ShutsGone(Owns(inner));
    assert [] + rest == rest;
    TypeParses(tab, inner, reserved, cs, rest, e);
    PointerTakes(tab, n, sigil, m, e);
    NotAt(ParseBase(tab, s).s, LParen);
    TypeIsBase(tab, s);
  }

  lemma TypeIsBase(tab: Ctfe.Table, s: State)
    requires Within(s) && ParseBase(tab, s).Got? && !At(ParseBase(tab, s).s, LParen)
    ensures ParseType(tab, s) == ParseBase(tab, s)
  {
  }
}
