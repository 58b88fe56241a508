/** The text of a type, lexed: its tokens are those the round trip starts from, with the
    closing brackets paired up as `>>`. */
module TypeLexing {
  import opened LexSpec
  import opened LexLines
  import opened ParserTokens
  import opened TypeKeys
  import opened TypeSyntax
  import opened TypeRoundTrip
  import Ctfe

  // ------------------------------------------------------------------- lexing in pieces

  /** Lexing `s` gives `toks` and then whatever lexing `rest` gives. */
  predicate Reads(s: string, toks: seq<Tok>, rest: string) {
    Lex(Between, s) == Before(toks, Lex(Between, rest))
  }

  lemma ReadsOn(s: string, a: seq<Tok>, mid: string, b: seq<Tok>, rest: string)
    requires Reads(s, a, mid) && Reads(mid, b, rest)
    ensures Reads(s, a + b, rest)
  {
    var r := Lex(Between, rest);
    if r.Good? { assert a + (b + r.toks) == a + b + r.toks; }
  }

  lemma ReadsOne(s: string, t: Tok, rest: string)
    requires Lex(Between, s) == LexSpec.Then(t, Lex(Between, rest))
    ensures Reads(s, [t], rest)
  {
  }

  lemma {:induction false} KindsConcat(a: seq<Tok>, b: seq<Tok>, reserved: set<string>)
    ensures Kinds(a + b, reserved) == Kinds(a, reserved) + Kinds(b, reserved)
    decreases |a|
  {
    if |a| == 0 {
      assert a + b == b;
    } else {
      assert (a + b)[1..] == a[1..] + b;
      KindsConcat(a[1..], b, reserved);
    }
  }

  lemma KindsOne(t: Tok, reserved: set<string>)
    ensures Kinds([t], reserved) == [KindOf(t, reserved)]
  {
    assert [t][1..] == [];
  }

  predicate IsIdentText(w: string) {
    |w| > 0 && IsIdentStart(w[0]) && forall c | c in w :: IsIdentCont(c)
  }

  predicate NoIdentAhead(s: string) {
    |s| == 0 || !IsIdentCont(s[0])
  }

  lemma {:induction false} SpanAll(w: string, rest: string, p: char -> bool)
    requires (forall c | c in w :: p(c)) && (|rest| == 0 || !p(rest[0]))
    ensures Span(w + rest, p) == |w|
    decreases |w|
  {
    if |w| == 0 {
      assert w + rest == rest;
    } else {
      assert w[0] in w && forall c | c in w[1..] :: c in w;
      assert (w + rest)[1..] == w[1..] + rest;
      SpanAll(w[1..], rest, p);
    }
  }

  lemma LexWord(w: string, rest: string)
    requires IsIdentText(w) && NoIdentAhead(rest)
    ensures Reads(w + rest, [Word(w)], rest)
  {
    var s := w + rest;
    SpanAll(w, rest, IsIdentCont);
    assert s[0] == w[0] && s[..|w|] == w && s[|w|..] == rest;
    assert Code(s) == Token.Token(Word(w), |w|);
    ReadsOne(s, Word(w), rest);
  }

  lemma LexSpace(rest: string)
    ensures Reads([' '] + rest, [], rest)
  {
    assert ([' '] + rest)[1..] == rest;
    if Lex(Between, rest).Good? { assert [] + Lex(Between, rest).toks == Lex(Between, rest).toks; }
  }

  /** A one-byte operator that does not start a longer one. */
  lemma LexOp(c: char, rest: string)
    requires IsOneByteOp(c) && c != '/' && (|rest| > 0 ==> !IsTwoByteOp(c, rest[0]))
    ensures Reads([c] + rest, [Op([c])], rest)
  {
    var s := [c] + rest;
    assert s[0] == c && s[1..] == rest && (|rest| > 0 ==> s[1] == rest[0]);
    assert Code(s) == Token.Token(Op([c]), 1);
    ReadsOne(s, Op([c]), rest);
  }

  /** A doubled operator: `>>` or `::`. */
  lemma LexDouble(c: char, rest: string)
    requires c == '>' || c == ':'
    ensures Reads([c, c] + rest, [Op([c, c])], rest)
  {
    var s := [c, c] + rest;
    assert s[0] == c && s[1] == c && s[2..] == rest;
    assert Code(s) == Token.Token(Op([c, c]), 2);
    ReadsOne(s, Op([c, c]), rest);
  }

  // ------------------------------------------------------------------ closing brackets

  function Angles(n: nat): string {
    if n == 0 then "" else ['>'] + Angles(n - 1)
  }

  predicate Breaks(rest: string) {
    |rest| == 0 || (!IsIdentCont(rest[0]) && rest[0] != '>' && rest[0] != '=')
  }

  /** The lexer takes closing brackets two at a time. */
  lemma {:induction false} LexAngles(n: nat, rest: string, reserved: set<string>) returns (toks: seq<Tok>)
    requires Breaks(rest)
    ensures Reads(Angles(n) + rest, toks, rest) && Kinds(toks, reserved) == Shuts(n)
    decreases n
  {
    if n == 0 {
      toks := [];
      assert Angles(0) + rest == rest;
      if Lex(Between, rest).Good? { assert [] + Lex(Between, rest).toks == Lex(Between, rest).toks; }
    } else if n == 1 {
      toks := [Op(['>'])];
      assert Angles(1) + rest == ['>'] + rest;
      LexOp('>', rest);
      KindsOne(toks[0], reserved);
    } else {
      var more := LexAngles(n - 2, rest, reserved);
      AnglePair(n, rest);
      ReadsOn(Angles(n) + rest, [Op(['>', '>'])], Angles(n - 2) + rest, more, rest);
      toks := [Op(['>', '>'])] + more;
      KindsConcat([Op(['>', '>'])], more, reserved);
      KindsOne(Op(['>', '>']), reserved);
    }
  }

  lemma AnglePair(n: nat, rest: string)
    requires n >= 2
    ensures Reads(Angles(n) + rest, [Op(['>', '>'])], Angles(n - 2) + rest)
  {
    LexDouble('>', Angles(n - 2) + rest);
    assert Angles(n) == ['>'] + (['>'] + Angles(n - 2));
    assert Angles(n) + rest == ['>', '>'] + (Angles(n - 2) + rest);
  }

  // --------------------------------------------------------------------------- numbers

  lemma {:induction false} DecimalValue(n: nat)
    ensures Value(Decimal(n), 10) == n
    decreases n
  {
    var s := Decimal(n);
    var d := '0' + (n % 10) as char;
    assert DigitValue(d) == n % 10;
    if n >= 10 {
      DecimalValue(n / 10);
      assert s[..|s| - 1] == Decimal(n / 10);
    } else {
      assert s[..|s| - 1] == "";
    }
  }

  lemma {:induction false} NoBars(s: string)
    requires forall c | c in s :: IsDigit(c)
    ensures WithoutBars(s) == s
    decreases |s|
  {
    if |s| > 0 {
      assert s[0] in s && forall c | c in s[1..] :: c in s;
      NoBars(s[1..]);
      assert s == [s[0]] + s[1..];
    }
  }

  lemma DecimalShape(w: string, tail: string)
    requires |w| > 0 && (forall c | c in w :: IsDigit(c)) && |tail| > 0 && tail[0] == ']'
    ensures var s := w + tail;
            DecimalLen(s) == |w| == WholeLen(s) && s[..|w|] == w && s[|w|..] == tail && WidthLen(tail) == 0
    ensures FloatWidth(tail) == 0
  {
    var s := w + tail;
    SpanAll(w, tail, IsDigitOrBar);
    assert s[..|w|] == w && s[|w|..] == tail;
    assert MantissaLen(s) == |w|;
  }

  lemma DecimalCode(n: nat, tail: string)
    requires n <= Ctfe.MAX64 && |tail| > 0 && tail[0] == ']'
    ensures LexSpec.DecimalNumber(Decimal(n) + tail) == Token.Token(IntTok(n), |Decimal(n)|)
  {
    var w := Decimal(n);
    DecimalShape(w, tail);
    NoBars(w);
    DecimalValue(n);
  }

  /** A number up to the bracket that closes an array length. */
  lemma LexLength(n: nat, rest: string)
    requires n <= Ctfe.MAX64
    ensures Reads(Decimal(n) + ([']'] + rest), [IntTok(n)], [']'] + rest)
  {
    var w, tail := Decimal(n), [']'] + rest;
    var s := w + tail;
    assert w[0] in w && s[0] == w[0];
    assert |w| >= 2 ==> s[1] == w[1] && w[1] in w;
    assert |w| == 1 ==> s[1] == ']';
    DecimalCode(n, tail);
    assert s[|w|..] == tail;
    CodeReads(s, IntTok(n), |w|);
  }

  lemma CodeReads(s: string, t: Tok, n: nat)
    requires 0 < n <= |s| && IsDigit(s[0]) && Code(s) == Token.Token(t, n)
    ensures Reads(s, [t], s[n..])
  {
    ReadsOne(s, t, s[n..]);
  }

  // ------------------------------------------------------------------ the text of a type

  /** The text of a type without the brackets that close at its end. */
  function BodyText(t: Type): string
    decreases t, 0
  {
    match t
    case Named(n) => n
    case Generic(n, args) => n + (['<'] + ArgTexts(args))
    case AssocPath(base, segment) => BodyText(base) + (Angles(Owns(base)) + ([':', ':'] + segment))
    case Ref(m, i) => "&" + MutText(m) + BodyText(i)
    case Ptr(m, i) => "*" + MutText(m) + BodyText(i)
    case RawPtr(m, i) => "raw *" + MutText(m) + BodyText(i)
    case OwnPtr(m, i) => "own *" + MutText(m) + BodyText(i)
    case Heap(i) => "own &" + BodyText(i)
    case Array(n, e) => "[" + Signed(n) + "]" + BodyText(e)
    case Slice(m, e) => "[]" + MutText(m) + BodyText(e)
    case Vec(e) => "[*]" + BodyText(e)
  }

  function ArgTexts(ts: seq<Type>): string
    decreases ts
  {
    if |ts| == 0 then ""
    else if |ts| == 1 then BodyText(ts[0])
    else BodyText(ts[0]) + (Angles(Owns(ts[0])) + ([','] + ([' '] + ArgTexts(ts[1..]))))
  }

  lemma {:induction false} AnglesEnd(n: nat)
    ensures Angles(n) + ">" == Angles(n + 1)
    decreases n
  {
    if n > 0 {
      AnglesEnd(n - 1);
      assert ['>'] + Angles(n - 1) + ">" == ['>'] + (Angles(n - 1) + ">");
    } else {
      assert "" + ">" == ['>'] + "";
    }
  }

  lemma Assoc(a: string, b: string, c: string)
    ensures a + (b + c) == a + b + c
  {
  }

  lemma {:induction false} TextIs(t: Type)
    requires WellArgued(t)
    ensures Text(t) == BodyText(t) + Angles(Owns(t))
    decreases t, 1
  {
    match t
    case Named(n) => assert n + "" == n;
    case Generic(n, args) =>
      ListTextIs(args);
      var owns := Owns(args[|args| - 1]);
      AnglesEnd(owns);
      Assoc(n + ['<'], ArgTexts(args), Angles(owns));
      Assoc(n + ['<'] + ArgTexts(args), Angles(owns), ">");
      Assoc(n, ['<'], ArgTexts(args));
    case AssocPath(base, segment) =>
      TextIs(base);
      assert Text(base) + "::" + segment == BodyText(base) + (Angles(Owns(base)) + ([':', ':'] + segment));
      assert Text(t) + "" == Text(t);
    case Ref(m, i) => TextIs(i); Assoc("&" + MutText(m), BodyText(i), Angles(Owns(i)));
    case Ptr(m, i) => TextIs(i); Assoc("*" + MutText(m), BodyText(i), Angles(Owns(i)));
    case RawPtr(m, i) => TextIs(i); Assoc("raw *" + MutText(m), BodyText(i), Angles(Owns(i)));
    case OwnPtr(m, i) => TextIs(i); Assoc("own *" + MutText(m), BodyText(i), Angles(Owns(i)));
    case Heap(i) => TextIs(i); Assoc("own &", BodyText(i), Angles(Owns(i)));
    case Array(n, e) => TextIs(e); Assoc("[" + Signed(n) + "]", BodyText(e), Angles(Owns(e)));
    case Slice(m, e) => TextIs(e); Assoc("[]" + MutText(m), BodyText(e), Angles(Owns(e)));
    case Vec(e) => TextIs(e); Assoc("[*]", BodyText(e), Angles(Owns(e)));
  }

  /** Every generic has arguments. */
  predicate WellArgued(t: Type) {
    match t
    case Named(_) => true
    case Generic(_, args) => |args| > 0 && forall a | a in args :: WellArgued(a)
    case AssocPath(base, _) => WellArgued(base)
    case Ref(_, i) => WellArgued(i)
    case Ptr(_, i) => WellArgued(i)
    case RawPtr(_, i) => WellArgued(i)
    case OwnPtr(_, i) => WellArgued(i)
    case Heap(i) => WellArgued(i)
    case Array(_, e) => WellArgued(e)
    case Slice(_, e) => WellArgued(e)
    case Vec(e) => WellArgued(e)
  }

  lemma {:induction false} ListTextIs(ts: seq<Type>)
    requires |ts| > 0 && forall t | t in ts :: WellArgued(t)
    ensures TextList(ts) == ArgTexts(ts) + Angles(Owns(ts[|ts| - 1]))
    decreases ts
  {
    TextIs(ts[0]);
    if |ts| > 1 {
      assert forall t | t in ts[1..] :: t in ts;
      ListTextIs(ts[1..]);
      CommaText(BodyText(ts[0]), Angles(Owns(ts[0])), ArgTexts(ts[1..]), Angles(Owns(ts[|ts| - 1])));
    }
  }

  lemma CommaText(a: string, b: string, c: string, d: string)
    ensures a + b + ", " + (c + d) == a + (b + ([','] + ([' '] + c))) + d
  {
  }

  // -------------------------------------------------------------------- lexing the text

  lemma {:induction false} PrintableIsWellArgued(t: Type, reserved: set<string>)
    requires Printable(t, reserved)
    ensures WellArgued(t)
    decreases t
  {
    match t
    case Named(_) =>
    case Generic(_, args) =>
      forall a | a in args ensures WellArgued(a) { PrintableIsWellArgued(a, reserved); }
    case AssocPath(base, _) => PrintableIsWellArgued(base, reserved);
    case Ref(_, i) => PrintableIsWellArgued(i, reserved);
    case Ptr(_, i) => PrintableIsWellArgued(i, reserved);
    case RawPtr(_, i) => PrintableIsWellArgued(i, reserved);
    case OwnPtr(_, i) => PrintableIsWellArgued(i, reserved);
    case Heap(i) => PrintableIsWellArgued(i, reserved);
    case Array(_, e) => PrintableIsWellArgued(e, reserved);
    case Slice(_, e) => PrintableIsWellArgued(e, reserved);
    case Vec(e) => PrintableIsWellArgued(e, reserved);
  }

  predicate StartsType(x: string) {
    |x| > 0 && (IsIdentStart(x[0]) || x[0] == '&' || x[0] == '*' || x[0] == '[')
  }

  lemma {:induction false} TextStarts(t: Type, reserved: set<string>, rest: string)
    requires Printable(t, reserved)
    ensures StartsType(BodyText(t)) && StartsType(BodyText(t) + rest)
    ensures (BodyText(t) + rest)[0] == '&' ==> t.Ref?
    decreases t
  {
    if t.AssocPath? { TextStarts(t.base, reserved, ""); assert BodyText(t.base) + "" == BodyText(t.base); }
    else if t.Generic? { assert BodyText(t)[0] == t.name[0]; }
  }

  lemma OneKind(s: string, c: char, rest: string, reserved: set<string>)
    requires Reads(s, [Op([c])], rest)
    ensures Kinds([Op([c])], reserved) == [CharKind(c)]
  {
    KindsOne(Op([c]), reserved);
    assert KindOf(Op([c]), reserved) == OpKind([c]);
  }

  /** An operator in front. */
  lemma OpReads(c: char, x: string, toks: seq<Tok>, rest: string, reserved: set<string>) returns (all: seq<Tok>)
    requires IsOneByteOp(c) && c != '/' && (|x| > 0 ==> !IsTwoByteOp(c, x[0])) && Reads(x, toks, rest)
    ensures Reads([c] + x, all, rest) && Kinds(all, reserved) == [CharKind(c)] + Kinds(toks, reserved)
  {
    hide Reads, Kinds;
    LexOp(c, x);
    ReadsOn([c] + x, [Op([c])], x, toks, rest);
    all := [Op([c])] + toks;
    OneKind([c] + x, c, x, reserved);
    KindsConcat([Op([c])], toks, reserved);
  }

  /** A keyword and a space in front. */
  lemma KeywordReads(w: string, x: string, toks: seq<Tok>, rest: string, reserved: set<string>) returns (all: seq<Tok>)
    requires IsIdentText(w) && Reads(x, toks, rest)
    ensures Reads(w + ([' '] + x), all, rest) && Kinds(all, reserved) == [WordKind(w, reserved)] + Kinds(toks, reserved)
  {
    hide Reads, Kinds;
    LexWord(w, [' '] + x);
    LexSpace(x);
    ReadsOn([' '] + x, [], x, toks, rest);
    assert [] + toks == toks;
    ReadsOn(w + ([' '] + x), [Word(w)], [' '] + x, toks, rest);
    all := [Word(w)] + toks;
    KindsConcat([Word(w)], toks, reserved);
    KindsOne(Word(w), reserved);
  }

  lemma Keywords(reserved: set<string>)
    ensures WordKind("mut", reserved) == Mut && WordKind("raw", reserved) == Raw && WordKind("own", reserved) == Own
    ensures IsIdentText("mut") && IsIdentText("raw") && IsIdentText("own")
    ensures CharKind('*') == Star && CharKind('&') == Amp && CharKind('[') == LBracket && CharKind(']') == RBracket
  {
  }

  lemma MutReads(m: Mutness, x: string, toks: seq<Tok>, rest: string, reserved: set<string>) returns (all: seq<Tok>)
    requires m != Constant && StartsType(x) && Reads(x, toks, rest)
    ensures Reads(MutText(m) + x, all, rest) && Kinds(all, reserved) == MutKinds(m) + Kinds(toks, reserved)
    ensures |MutText(m) + x| > 0 && (m == Default || (MutText(m) + x)[0] == 'm') && (m == Default ==> (MutText(m) + x) == x)
  {
    hide Reads, Kinds, WordKind, CharKind, IsIdentText;
    Keywords(reserved);
    if m == Mutable {
      assert "mut " + x == "mut" + ([' '] + x);
      all := KeywordReads("mut", x, toks, rest, reserved);
    } else {
      all := toks;
      assert "" + x == x;
      assert [] + Kinds(toks, reserved) == Kinds(toks, reserved);
    }
  }

  /** A type that begins with a sigil: its first tokens, given those of what follows. */
  lemma SigilReads(t: Type, x: string, toks: seq<Tok>, rest: string, reserved: set<string>) returns (all: seq<Tok>)
    requires t.Ref? || t.Ptr?
    requires t.mutness != Constant && StartsType(x) && Reads(x, toks, rest)
    requires t.Ref? && t.mutness == Default ==> x[0] != '&'
    ensures Reads(Prefix(t) + x, all, rest) && Kinds(all, reserved) == PrefixKinds(t) + Kinds(toks, reserved)
  {
    hide Reads, Kinds, WordKind, CharKind, IsIdentText;
    Keywords(reserved);
    var inner := MutReads(t.mutness, x, toks, rest, reserved);
    var c := if t.Ref? then '&' else '*';
    all := OpReads(c, MutText(t.mutness) + x, inner, rest, reserved);
    SigilPrefix(t, x);
    assert PrefixKinds(t) + Kinds(toks, reserved) == [CharKind(c)] + (MutKinds(t.mutness) + Kinds(toks, reserved));
  }

  lemma SigilPrefix(t: Type, x: string)
    requires t.Ref? || t.Ptr?
    ensures Prefix(t) + x == [if t.Ref? then '&' else '*'] + (MutText(t.mutness) + x)
  {
  }

  lemma SliceReads(t: Type, x: string, toks: seq<Tok>, rest: string, reserved: set<string>) returns (all: seq<Tok>)
    requires t.Slice? && t.mutness != Constant && StartsType(x) && Reads(x, toks, rest)
    ensures Reads(Prefix(t) + x, all, rest) && Kinds(all, reserved) == PrefixKinds(t) + Kinds(toks, reserved)
  {
    hide Reads, Kinds, WordKind, CharKind, IsIdentText;
    var inner := MutReads(t.mutness, x, toks, rest, reserved);
    all := BracketsRead(MutText(t.mutness) + x, inner, rest, reserved);
    SlicePrefix(t, x);
    KindAssoc([LBracket] + [RBracket], MutKinds(t.mutness), Kinds(toks, reserved));
    assert PrefixKinds(t) == [LBracket] + [RBracket] + MutKinds(t.mutness);
  }

  lemma SlicePrefix(t: Type, x: string)
    requires t.Slice?
    ensures Prefix(t) + x == ['['] + ([']'] + (MutText(t.mutness) + x))
  {
  }

  lemma BracketsRead(x: string, toks: seq<Tok>, rest: string, reserved: set<string>) returns (all: seq<Tok>)
    requires Reads(x, toks, rest)
    ensures Reads(['['] + ([']'] + x), all, rest) && Kinds(all, reserved) == [LBracket] + [RBracket] + Kinds(toks, reserved)
  {
    hide Reads, Kinds;
    Keywords(reserved);
    var more := OpReads(']', x, toks, rest, reserved);
    all := OpReads('[', [']'] + x, more, rest, reserved);
  }

  lemma WordPrefixReads(t: Type, x: string, toks: seq<Tok>, rest: string, reserved: set<string>) returns (all: seq<Tok>)
    requires t.RawPtr? || t.OwnPtr?
    requires t.mutness != Constant && StartsType(x) && Reads(x, toks, rest)
    ensures Reads(Prefix(t) + x, all, rest) && Kinds(all, reserved) == PrefixKinds(t) + Kinds(toks, reserved)
  {
    hide Reads, Kinds, WordKind, CharKind, IsIdentText;
    Keywords(reserved);
    var inner := MutReads(t.mutness, x, toks, rest, reserved);
    var y := MutText(t.mutness) + x;
    var more := OpReads('*', y, inner, rest, reserved);
    var w := if t.RawPtr? then "raw" else "own";
    all := KeywordReads(w, ['*'] + y, more, rest, reserved);
    assert Prefix(t) + x == w + ([' '] + (['*'] + y));
  }

  lemma PlainPrefixReads(t: Type, x: string, toks: seq<Tok>, rest: string, reserved: set<string>) returns (all: seq<Tok>)
    requires t.Heap? || t.Vec?
    requires StartsType(x) && Reads(x, toks, rest) && (t.Heap? ==> x[0] != '&')
    ensures Reads(Prefix(t) + x, all, rest) && Kinds(all, reserved) == PrefixKinds(t) + Kinds(toks, reserved)
  {
    hide Reads, Kinds, WordKind, CharKind, IsIdentText;
    Keywords(reserved);
    if t.Heap? {
      var more := OpReads('&', x, toks, rest, reserved);
      all := KeywordReads("own", ['&'] + x, more, rest, reserved);
      assert Prefix(t) + x == "own" + ([' '] + (['&'] + x));
    } else {
      var a := OpReads(']', x, toks, rest, reserved);
      var b := OpReads('*', [']'] + x, a, rest, reserved);
      all := OpReads('[', ['*'] + ([']'] + x), b, rest, reserved);
      assert Prefix(t) + x == ['['] + (['*'] + ([']'] + x));
    }
  }

  lemma ArrayPrefixReads(t: Type, x: string, toks: seq<Tok>, rest: string, reserved: set<string>) returns (all: seq<Tok>)
    requires t.Array? && 0 <= t.len <= Ctfe.MAX64 && StartsType(x) && Reads(x, toks, rest)
    ensures Reads(Prefix(t) + x, all, rest) && Kinds(all, reserved) == PrefixKinds(t) + Kinds(toks, reserved)
  {
    hide Reads, Kinds, WordKind, CharKind, IsIdentText;
    Keywords(reserved);
    var closing := OpReads(']', x, toks, rest, reserved);
    var w := Decimal(t.len);
    LexLength(t.len, x);
    ReadsOn(w + ([']'] + x), [IntTok(t.len)], [']'] + x, closing, rest);
    var number := [IntTok(t.len)] + closing;
    KindsConcat([IntTok(t.len)], closing, reserved);
    KindsOne(IntTok(t.len), reserved);
    assert w[0] in w;
    all := OpReads('[', w + ([']'] + x), number, rest, reserved);
    assert Prefix(t) + x == ['['] + (w + ([']'] + x));
  }

  predicate HasPrefix(t: Type) {
    !t.Named? && !t.Generic? && !t.AssocPath?
  }

  function PartOf(t: Type): Type
    requires HasPrefix(t)
  {
    match t
    case Ref(_, i) => i
    case Ptr(_, i) => i
    case RawPtr(_, i) => i
    case OwnPtr(_, i) => i
    case Heap(i) => i
    case Array(_, e) => e
    case Slice(_, e) => e
    case Vec(e) => e
  }

  function Prefix(t: Type): string
    requires HasPrefix(t)
  {
    match t
    case Ref(m, _) => "&" + MutText(m)
    case Ptr(m, _) => "*" + MutText(m)
    case RawPtr(m, _) => "raw *" + MutText(m)
    case OwnPtr(m, _) => "own *" + MutText(m)
    case Heap(_) => "own &"
    case Array(n, _) => "[" + Signed(n) + "]"
    case Slice(m, _) => "[]" + MutText(m)
    case Vec(_) => "[*]"
  }

  function PrefixKinds(t: Type): seq<Kind>
    requires HasPrefix(t)
  {
    match t
    case Ref(m, _) => [Amp] + MutKinds(m)
    case Ptr(m, _) => [Star] + MutKinds(m)
    case RawPtr(m, _) => [Raw] + ([Star] + MutKinds(m))
    case OwnPtr(m, _) => [Own] + ([Star] + MutKinds(m))
    case Heap(_) => [Own] + [Amp]
    case Array(n, _) => [LBracket] + ([Num(n)] + [RBracket])
    case Slice(m, _) => [LBracket] + ([RBracket] + MutKinds(m))
    case Vec(_) => [LBracket] + ([Star] + [RBracket])
  }

  lemma PrefixSplits(t: Type)
    requires HasPrefix(t)
    ensures BodyText(t) == Prefix(t) + BodyText(PartOf(t)) && Owns(t) == Owns(PartOf(t))
    ensures Body(t) == PrefixKinds(t) + Body(PartOf(t))
  {
    var b := Body(PartOf(t));
    match t
    case Ref(m, _) => Glue(Amp, MutKinds(m), b);
    case Ptr(m, _) => Glue(Star, MutKinds(m), b);
    case RawPtr(m, _) => Glue2(Raw, Star, MutKinds(m), b);
    case OwnPtr(m, _) => Glue2(Own, Star, MutKinds(m), b);
    case Heap(_) => Glue2(Own, Amp, [], b); EmptyEnd(Amp, b);
    case Array(n, _) => Glue3(LBracket, Num(n), RBracket, [], b); EmptyEnd(RBracket, b);
    case Slice(m, _) => Glue2(LBracket, RBracket, MutKinds(m), b);
    case Vec(_) => Glue3(LBracket, Star, RBracket, [], b); EmptyEnd(RBracket, b);
  }

  lemma EmptyEnd(k: Kind, b: seq<Kind>)
    ensures [k] + [] == [k] && [] + b == b
  {
  }

  lemma AnyPrefixReads(t: Type, x: string, toks: seq<Tok>, rest: string, reserved: set<string>) returns (all: seq<Tok>)
    requires HasPrefix(t) && Printable(t, reserved) && StartsType(x) && Reads(x, toks, rest)
    requires x[0] == '&' ==> PartOf(t).Ref?
    ensures Reads(Prefix(t) + x, all, rest) && Kinds(all, reserved) == PrefixKinds(t) + Kinds(toks, reserved)
  {
    if t.Ref? || t.Ptr? { all := SigilReads(t, x, toks, rest, reserved); }
    else if t.Slice? { all := SliceReads(t, x, toks, rest, reserved); }
    else if t.RawPtr? || t.OwnPtr? { all := WordPrefixReads(t, x, toks, rest, reserved); }
    else if t.Array? { all := ArrayPrefixReads(t, x, toks, rest, reserved); }
    else { all := PlainPrefixReads(t, x, toks, rest, reserved); }
  }

  lemma AfterBreaks(k: nat, rest: string)
    requires Breaks(rest)
    ensures NoIdentAhead(Angles(k) + rest)
  {
    if k == 0 { assert Angles(0) + rest == rest; }
  }

  /** A word, and the closing brackets behind it. */
  lemma LexLeaf(n: string, k: nat, rest: string, reserved: set<string>) returns (toks: seq<Tok>)
    requires IsIdentText(n) && Breaks(rest)
    ensures Reads(n + (Angles(k) + rest), toks, rest) && Kinds(toks, reserved) == [WordKind(n, reserved)] + Shuts(k)
  {
    hide Reads, Kinds, WordKind;
    var closing := LexAngles(k, rest, reserved);
    AfterBreaks(k, rest);
    LexWord(n, Angles(k) + rest);
    ReadsOn(n + (Angles(k) + rest), [Word(n)], Angles(k) + rest, closing, rest);
    toks := [Word(n)] + closing;
    KindsConcat([Word(n)], closing, reserved);
    KindsOne(Word(n), reserved);
  }

  lemma NameKind(n: string, reserved: set<string>)
    requires n == "unit" || IsName(n, reserved)
    ensures IsIdentText(n) && [WordKind(n, reserved)] == Body(Named(n))
  {
  }

  /** A printed type lexes to its tokens, with `k` closing brackets paired up behind. */
  lemma {:induction false} LexBody(t: Type, k: nat, rest: string, reserved: set<string>) returns (toks: seq<Tok>)
    requires Printable(t, reserved) && Breaks(rest)
    ensures Reads(BodyText(t) + (Angles(k) + rest), toks, rest) && Kinds(toks, reserved) == Body(t) + Shuts(k)
    decreases t, 1
  {
    hide Reads, Kinds, WordKind;
    if HasPrefix(t) {
      toks := LexPrefixed(t, k, rest, reserved);
    } else if t.Named? {
      NameKind(t.name, reserved);
      toks := LexLeaf(t.name, k, rest, reserved);
    } else if t.Generic? {
      toks := LexGeneric(t, k, rest, reserved);
    } else {
      toks := LexSegment(t, k, rest, reserved);
    }
  }

  lemma {:induction false} LexPrefixed(t: Type, k: nat, rest: string, reserved: set<string>) returns (toks: seq<Tok>)
    requires HasPrefix(t) && Printable(t, reserved) && Breaks(rest)
    ensures Reads(BodyText(t) + (Angles(k) + rest), toks, rest) && Kinds(toks, reserved) == Body(t) + Shuts(k)
    decreases t, 0
  {
    hide Reads, Kinds, WordKind, BodyText, Body, Prefix, PrefixKinds;
    var part, after := PartOf(t), Angles(k) + rest;
    PartPrintable(t, reserved);
    var inner := LexBody(part, k, rest, reserved);
    TextStarts(part, reserved, after);
    toks := AnyPrefixReads(t, BodyText(part) + after, inner, rest, reserved);
    PrefixSplits(t);
    Assoc(Prefix(t), BodyText(part), after);
    KindAssoc(PrefixKinds(t), Body(part), Shuts(k));
  }

  lemma PartPrintable(t: Type, reserved: set<string>)
    requires HasPrefix(t) && Printable(t, reserved)
    ensures Printable(PartOf(t), reserved) && PartOf(t) < t
  {
  }

  lemma KindAssoc(a: seq<Kind>, b: seq<Kind>, c: seq<Kind>)
    ensures a + (b + c) == a + b + c
  {
  }

  lemma {:induction false} LexGeneric(t: Type, k: nat, rest: string, reserved: set<string>) returns (toks: seq<Tok>)
    requires t.Generic? && Printable(t, reserved) && Breaks(rest)
    ensures Reads(BodyText(t) + (Angles(k) + rest), toks, rest) && Kinds(toks, reserved) == Body(t) + Shuts(k)
    decreases t, 0
  {
    hide Reads, Kinds, WordKind;
    var after := Angles(k) + rest;
    var args := LexArgs(t.args, k, rest, reserved);
    ArgsStart(t.args, reserved, after);
    var x := ArgTexts(t.args) + after;
    var inside := OpReads('<', x, args, rest, reserved);
    LexWord(t.name, ['<'] + x);
    ReadsOn(t.name + (['<'] + x), [Word(t.name)], ['<'] + x, inside, rest);
    toks := [Word(t.name)] + inside;
    KindsConcat([Word(t.name)], inside, reserved);
    KindsOne(Word(t.name), reserved);
    assert BodyText(t) + after == t.name + (['<'] + x);
    assert [Name(t.name)] + ([Lt] + (ArgBodies(t.args) + Shuts(k))) == [Name(t.name)] + ([Lt] + ArgBodies(t.args)) + Shuts(k);
  }

  lemma {:induction false} ArgsStart(ts: seq<Type>, reserved: set<string>, rest: string)
    requires |ts| > 0 && forall t | t in ts :: Printable(t, reserved)
    ensures StartsType(ArgTexts(ts) + rest)
  {
    TextStarts(ts[0], reserved, "");
    assert BodyText(ts[0]) + "" == BodyText(ts[0]);
    assert ArgTexts(ts)[0] == BodyText(ts[0])[0];
  }

  lemma {:induction false} LexSegment(t: Type, k: nat, rest: string, reserved: set<string>) returns (toks: seq<Tok>)
    requires t.AssocPath? && Printable(t, reserved) && Breaks(rest)
    ensures Reads(BodyText(t) + (Angles(k) + rest), toks, rest) && Kinds(toks, reserved) == Body(t) + Shuts(k)
    decreases t, 0
  {
    hide Reads, Kinds, WordKind;
    var after := Angles(k) + rest;
    var leaf := LexLeaf(t.segment, k, rest, reserved);
    var x := t.segment + after;
    LexDouble(':', x);
    ReadsOn([':', ':'] + x, [Op([':', ':'])], x, leaf, rest);
    var tail := [Op([':', ':'])] + leaf;
    KindsConcat([Op([':', ':'])], leaf, reserved);
    KindsOne(Op([':', ':']), reserved);
    var base := LexBody(t.base, Owns(t.base), [':', ':'] + x, reserved);
    var all := BodyText(t.base) + (Angles(Owns(t.base)) + ([':', ':'] + x));
    ReadsOn(all, base, [':', ':'] + x, tail, rest);
    toks := base + tail;
    KindsConcat(base, tail, reserved);
    SegmentText(BodyText(t.base), Angles(Owns(t.base)), t.segment, after);
    SegmentKinds(Body(t.base), Shuts(Owns(t.base)), Name(t.segment), Shuts(k));
  }

  lemma SegmentText(a: string, b: string, c: string, d: string)
    ensures a + (b + ([':', ':'] + c)) + d == a + (b + ([':', ':'] + (c + d)))
  {
  }

  lemma SegmentKinds(a: seq<Kind>, b: seq<Kind>, c: Kind, d: seq<Kind>)
    ensures a + b + ([ColonColon] + ([c] + d)) == a + (b + ([ColonColon] + [c])) + d
  {
  }

  lemma {:induction false} LexArgs(ts: seq<Type>, k: nat, rest: string, reserved: set<string>) returns (toks: seq<Tok>)
    requires |ts| > 0 && (forall t | t in ts :: Printable(t, reserved)) && Breaks(rest)
    ensures Reads(ArgTexts(ts) + (Angles(k) + rest), toks, rest) && Kinds(toks, reserved) == ArgBodies(ts) + Shuts(k)
    decreases ts, 2
  {
    hide Reads, Kinds, WordKind;
    if |ts| == 1 {
      toks := LexBody(ts[0], k, rest, reserved);
    } else {
      var t, more := ts[0], ts[1..];
      assert forall x | x in more :: x in ts;
      var x := ArgTexts(more) + (Angles(k) + rest);
      var others := LexArgs(more, k, rest, reserved);
      var tail := CommaReads(x, others, rest, reserved);
      var first := LexBody(t, Owns(t), [','] + ([' '] + x), reserved);
      var all := BodyText(t) + (Angles(Owns(t)) + ([','] + ([' '] + x)));
      ReadsOn(all, first, [','] + ([' '] + x), tail, rest);
      toks := first + tail;
      KindsConcat(first, tail, reserved);
      ArgsText(BodyText(t), Angles(Owns(t)), ArgTexts(more), Angles(k) + rest);
      ArgsKinds(Body(t), Shuts(Owns(t)), ArgBodies(more), Shuts(k));
    }
  }

  lemma CommaReads(x: string, toks: seq<Tok>, rest: string, reserved: set<string>) returns (all: seq<Tok>)
    requires Reads(x, toks, rest)
    ensures Reads([','] + ([' '] + x), all, rest) && Kinds(all, reserved) == [Comma] + Kinds(toks, reserved)
  {
    hide Reads, Kinds;
    LexSpace(x);
    ReadsOn([' '] + x, [], x, toks, rest);
    assert [] + toks == toks;
    all := OpReads(',', [' '] + x, toks, rest, reserved);
  }

  lemma ArgsText(a: string, b: string, c: string, d: string)
    ensures a + (b + ([','] + ([' '] + c))) + d == a + (b + ([','] + ([' '] + (c + d))))
  {
  }

  lemma ArgsKinds(a: seq<Kind>, b: seq<Kind>, c: seq<Kind>, d: seq<Kind>)
    ensures a + b + ([Comma] + (c + d)) == a + (b + ([Comma] + c)) + d
  {
  }

  /** Printing a type, lexing the text and parsing the tokens gives the type back; what
      is left is the end of the source. */
  lemma TypeRoundTrips(tab: Ctfe.Table, t: Type, reserved: set<string>)
    requires Printable(t, reserved)
    ensures Tokens(Text(t)).Good?
    ensures var g := ParseType(tab, State(Kinds(Tokens(Text(t)).toks, reserved), 0));
            g.Got? && g.t == t && Ahead(g.s) == [Other(Eof)]
  {
    hide ParseType, Text, BodyText, Body, Printable;
    PrintableIsWellArgued(t, reserved);
    TextIs(t);
    var toks := LexBody(t, Owns(t), "", reserved);
    assert Angles(Owns(t)) + "" == Angles(Owns(t));
    assert Lex(Between, "") == Good([Eof]);
    KindsConcat(toks, [Eof], reserved);
    KindsOne(Eof, reserved);
    KindsRoundTrip(tab, t, reserved, [Other(Eof)]);
    assert Body(t) + Shuts(Owns(t)) + [Other(Eof)] == Body(t) + (Shuts(Owns(t)) + [Other(Eof)]);
  }
}
