/** The lexer as the object that walks over the source, proved to produce the token
    language of `LexSpec`. */
module Lexing {
  import opened LexSpec
  import opened LexLines

  /** Where a token can start: past white space and comments. */
  predicate AtToken(s: string) {
    |s| == 0 || (!IsSpace(s[0]) && !(s[0] == '/' && (Peek(s, 1) == '/' || Peek(s, 1) == '*')))
  }

  datatype Scanned = Failed | Scanned(tok: Tok)

  lemma Tail(s: string, i: nat, n: nat)
    requires i + n <= |s|
    ensures s[i..][n..] == s[i + n..]
    ensures s[i..][..n] == s[i..i + n]
  {
  }

  class Lexer {
    const src: string
    var pos: nat

    ghost predicate Valid()
      reads this
    {
      pos <= |src|
    }

    /** What is still to be read. */
    ghost function Rest(): string
      requires Valid()
      reads this
    {
      src[pos..]
    }

    constructor (source: string)
      ensures Valid() && src == source && pos == 0 && Rest() == source
    {
      src, pos := source, 0;
    }

    function At(o: nat): (c: char)
      requires Valid()
      reads this
      ensures c == Peek(Rest(), o)
    {
      if pos + o < |src| then src[pos + o] else '\0'
    }

    /** Step over `n` bytes. */
    method Skip(n: nat)
      requires Valid() && pos + n <= |src|
      modifies this
      ensures Valid() && pos == old(pos) + n && Rest() == old(Rest())[n..]
    {
      Tail(src, pos, n);
      pos := pos + n;
    }

    method Bump() returns (c: char)
      requires Valid() && pos < |src|
      modifies this
      ensures Valid() && pos == old(pos) + 1
      ensures c == old(Rest())[0] && Rest() == old(Rest())[1..]
    {
      c := src[pos];
      Skip(1);
    }

    /** Take the longest run of bytes in `p`. */
    method Run(p: char -> bool) returns (text: string)
      requires Valid()
      modifies this
      ensures Valid() && pos == old(pos) + Span(old(Rest()), p)
      ensures Rest() == old(Rest())[Span(old(Rest()), p)..]
      ensures text == old(Rest())[..Span(old(Rest()), p)]
    {
      var start := pos;
      while pos < |src| && p(src[pos])
        invariant Valid() && start <= pos
        invariant pos + Span(Rest(), p) == start + Span(src[start..], p)
      {
        Skip(1);
      }
      text := src[start..pos];
      Tail(src, start, pos - start);
    }

    method BlockComment() returns (ok: bool)
      requires Valid() && |Rest()| >= 2 && Rest()[0] == '/' && Rest()[1] == '*'
      modifies this
      ensures Valid() && pos > old(pos)
      ensures Lex(Between, old(Rest())) == if ok then Lex(Between, Rest()) else Bad
    {
      var depth := 1;
      Skip(2);
      while pos < |src| && depth > 0
        invariant Valid() && pos > old(pos)
        invariant Lex(Between, old(Rest())) == Lex(if depth > 0 then Comment(depth) else Between, Rest())
      {
        if At(0) == '/' && At(1) == '*' {
          Skip(2);
          depth := depth + 1;
        } else if At(0) == '*' && At(1) == '/' {
          Skip(2);
          depth := depth - 1;
        } else {
          Skip(1);
        }
      }
      ok := depth == 0;
    }

    method SkipSpace()
      requires Valid()
      modifies this
      ensures Valid() && pos >= old(pos) && (|Rest()| > 0 ==> !IsSpace(Rest()[0]))
      ensures Lex(Between, old(Rest())) == Lex(Between, Rest())
    {
      while pos < |src| && IsSpace(At(0))
        invariant Valid() && pos >= old(pos)
        invariant Lex(Between, old(Rest())) == Lex(Between, Rest())
      {
        Skip(1);
      }
    }

    method LineComment()
      requires Valid() && |Rest()| >= 2 && Rest()[0] == '/' && Rest()[1] == '/'
      modifies this
      ensures Valid() && pos > old(pos)
      ensures Lex(Between, old(Rest())) == Lex(Between, Rest())
    {
      var text := Run(NotNewline);
    }

    method SkipTrivia() returns (ok: bool)
      requires Valid()
      modifies this
      ensures Valid() && pos >= old(pos)
      ensures Lex(Between, old(Rest())) == if ok then Lex(Between, Rest()) else Bad
      ensures ok ==> AtToken(Rest())
    {
      while true
        invariant Valid() && pos >= old(pos)
        invariant Lex(Between, old(Rest())) == Lex(Between, Rest())
        decreases |src| - pos
      {
        SkipSpace();
        if At(0) == '/' && At(1) == '/' {
          LineComment();
        } else if At(0) == '/' && At(1) == '*' {
          ok := BlockComment();
          if !ok { return; }
        } else {
          return true;
        }
      }
    }

    method EatWidthSuffix() returns (isFloat: bool)
      requires Valid()
      modifies this
      ensures Valid() && WidthLen(old(Rest())) <= |old(Rest())| && Rest() == old(Rest())[WidthLen(old(Rest()))..]
      ensures isFloat == (FloatWidth(old(Rest())) > 0)
    {
      var float, integer := FloatWidth(src[pos..]), IntWidth(src[pos..]);
      if float > 0 {
        Skip(float);
        return true;
      }
      Skip(integer);
      return false;
    }

    /** The token read, or the failure, is the one the specification gives for `s`. */
    ghost predicate Read(s: string, t: Token, r: Scanned)
      reads this
    {
      && Valid()
      && (t.NoToken? <==> r.Failed?)
      && (t.Token? ==> r.Scanned? && r.tok == t.tok && t.len <= |s| && Rest() == s[t.len..])
    }

    method RadixDigits(radix: nat) returns (digits: string)
      requires Valid()
      modifies this
      ensures Valid() && RadixLen(old(Rest()), radix) <= |old(Rest())|
      ensures digits == old(Rest())[..RadixLen(old(Rest()), radix)]
      ensures Rest() == old(Rest())[RadixLen(old(Rest()), radix)..]
    {
      if radix == 16 { digits := Run(IsHexOrBar); }
      else if radix == 2 { digits := Run(IsBinOrBar); }
      else { digits := Run(IsOctOrBar); }
    }

    /** The value of the digits read, and the width suffix after them. */
    method FinishRadix(digits: string, radix: nat) returns (r: Scanned)
      requires Valid()
      modifies this
      ensures Read(old(Rest()), RadixValue(digits, radix, old(Rest())), r)
    {
      var raw := WithoutBars(digits);
      if raw == "" { return Failed; }
      var magnitude := Value(raw, radix);
      if magnitude >= TWO_TO_THE_64 { return Failed; }
      var isFloat := EatWidthSuffix();
      r := Scanned(IntTok(if magnitude < TWO_TO_THE_63 then magnitude else magnitude - TWO_TO_THE_64));
    }

    method RadixNumber() returns (r: Scanned)
      requires Valid() && |Rest()| >= 2 && Rest()[0] == '0' && IsRadixMark(Rest()[1])
      modifies this
      ensures Read(old(Rest()), LexSpec.RadixNumber(old(Rest())), r)
    {
      ghost var s := Rest();
      Skip(1);
      var mark := Bump();
      Tail(s, 1, 1);
      var digits := RadixDigits(Radix(mark));
      ghost var after := Rest();
      r := FinishRadix(digits, Radix(mark));
      RadixParts(s, digits, after);
    }

    method Fraction() returns (taken: bool)
      requires Valid()
      modifies this
      ensures Valid() && pos == old(pos) + FractionLen(old(Rest()))
      ensures Rest() == old(Rest())[FractionLen(old(Rest()))..]
      ensures taken == (FractionLen(old(Rest())) > 0)
    {
      taken := At(0) == '.' && IsDigit(At(1));
      if taken {
        ghost var s := Rest();
        Skip(1);
        var digits := Run(IsDigitOrBar);
        Tail(s, 1, |digits|);
      }
    }

    method Exponent() returns (taken: bool)
      requires Valid()
      modifies this
      ensures Valid() && pos == old(pos) + ExponentLen(old(Rest()))
      ensures Rest() == old(Rest())[ExponentLen(old(Rest()))..]
      ensures taken == (ExponentLen(old(Rest())) > 0)
    {
      taken := At(0) == 'e' || At(0) == 'E';
      if taken {
        ghost var s := Rest();
        var sign := if At(1) == '+' || At(1) == '-' then 1 else 0;
        Skip(1 + sign);
        var digits := Run(IsDigit);
        Tail(s, 1 + sign, |digits|);
      }
    }

    method Mantissa() returns (fraction: bool)
      requires Valid()
      modifies this
      ensures Valid() && pos == old(pos) + MantissaLen(old(Rest()))
      ensures Rest() == old(Rest())[MantissaLen(old(Rest()))..]
      ensures fraction == (MantissaLen(old(Rest())) > WholeLen(old(Rest())))
    {
      ghost var s := Rest();
      var whole := Run(IsDigitOrBar);
      fraction := Fraction();
      Tail(s, WholeLen(s), MantissaLen(s) - WholeLen(s));
    }

    /** Whole part, fraction and exponent; their text. */
    method Decimals() returns (text: string, fraction: bool, exponent: bool)
      requires Valid()
      modifies this
      ensures Valid() && Rest() == old(Rest())[DecimalLen(old(Rest()))..]
      ensures text == old(Rest())[..DecimalLen(old(Rest()))]
      ensures fraction == (MantissaLen(old(Rest())) > WholeLen(old(Rest())))
      ensures exponent == (DecimalLen(old(Rest())) > MantissaLen(old(Rest())))
    {
      ghost var s := Rest();
      var start := pos;
      fraction := Mantissa();
      ghost var after := Rest();
      exponent := Exponent();
      DecimalSplits(s, MantissaLen(s), after);
      text := src[start..pos];
      Tail(src, start, pos - start);
    }

    method DecimalNumber() returns (r: Scanned)
      requires Valid() && |Rest()| > 0 && IsDigit(Rest()[0])
      modifies this
      ensures Read(old(Rest()), LexSpec.DecimalNumber(old(Rest())), r)
    {
      ghost var s := Rest();
      var text, fraction, exponent := Decimals();
      ghost var after := Rest();
      var suffixWasFloat := EatWidthSuffix();
      DecimalParts(s, text, fraction, exponent, after);
      if fraction || exponent || suffixWasFloat {
        if exponent && !IsDigit(text[|text| - 1]) { return Failed; }
        return Scanned(FloatTok(WithoutBars(text)));
      }
      var magnitude := Value(WithoutBars(text), 10);
      if magnitude >= TWO_TO_THE_64 { return Failed; }
      r := Scanned(IntTok(if magnitude < TWO_TO_THE_63 then magnitude else magnitude - TWO_TO_THE_64));
    }

    method Number() returns (r: Scanned)
      requires Valid() && |Rest()| > 0 && IsDigit(Rest()[0])
      modifies this
      ensures Read(old(Rest()), Code(old(Rest())), r)
    {
      DigitIsNoLetter(Rest()[0]);
      if At(0) == '0' && IsRadixMark(At(1)) {
        r := RadixNumber();
      } else {
        r := DecimalNumber();
      }
    }

    method Identifier() returns (r: Scanned)
      requires Valid() && |Rest()| > 0 && IsIdentStart(Rest()[0])
      modifies this
      ensures Read(old(Rest()), Code(old(Rest())), r)
    {
      var text := Run(IsIdentCont);
      r := Scanned(Word(text));
    }

    method Punctuation() returns (r: Scanned)
      requires Valid() && |Rest()| > 0
      modifies this
      ensures Read(old(Rest()), Operator(old(Rest())), r)
    {
      var a, b := At(0), At(1);
      if pos + 1 < |src| && IsTwoByteOp(a, b) {
        Skip(2);
        if a == '.' && At(0) == '=' {
          Skip(1);
          return Scanned(Op("..="));
        }
        return Scanned(Op([a, b]));
      }
      Skip(1);
      r := if IsOneByteOp(a) then Scanned(Op([a])) else Failed;
    }

    /** One character of a literal, an escape resolved. */
    method Character() returns (r: Escape)
      requires Valid() && |Rest()| > 0
      modifies this
      ensures Valid() && r == Glyph(old(Rest()))
      ensures r.Escape? ==> pos == old(pos) + r.len && Rest() == old(Rest())[r.len..]
      ensures pos > old(pos)
    {
      ghost var s := Rest();
      var c := Bump();
      if c != '\\' { return Escape(c, 1); }
      r := Unescape(src[pos..]);
      if r.Escape? {
        Skip(r.len);
        Tail(s, 1, r.len);
        r := Escape(r.c, 1 + r.len);
      }
    }

    /** The token read is the one the token language has, or neither has one. */
    ghost predicate Lexes(mode: Mode, s: string, r: Scanned)
      reads this
    {
      Valid() && Lex(mode, s) == match r case Failed => Bad case Scanned(t) => LexSpec.Then(t, Lex(Between, Rest()))
    }

    method CharLit() returns (r: Scanned)
      requires Valid() && |Rest()| > 0 && Rest()[0] == '\''
      modifies this
      ensures Lexes(Between, old(Rest()), r) && pos > old(pos)
    {
      ghost var all := Rest();
      Skip(1);
      QuoteOpens(all);
      if At(0) == '\0' { return Failed; }
      GlyphQuoted(Rest());
      var g := Character();
      if g.NoEscape? { return Failed; }
      if At(0) != '\'' { return Failed; }
      Skip(1);
      r := Scanned(ChrTok(g.c));
    }

    method StrLit() returns (r: Scanned)
      requires Valid() && |Rest()| > 0 && Rest()[0] == '"'
      modifies this
      ensures Lexes(Between, old(Rest()), r) && pos > old(pos)
    {
      ghost var all := Rest();
      Skip(1);
      StrOpens(all);
      var text := "";
      while pos < |src| && At(0) != '"'
        invariant Valid() && pos > old(pos)
        invariant Lex(Between, all) == Lex(InStr(text), Rest())
        decreases |src| - pos
      {
        GlyphInStr(text, Rest());
        var g := Character();
        if g.NoEscape? { return Failed; }
        text := text + [g.c];
      }
      if pos == |src| { return Failed; }
      Skip(1);
      r := Scanned(StrTok(text));
    }

    method NextToken() returns (r: Scanned)
      requires Valid() && |Rest()| > 0 && AtToken(Rest())
      modifies this
      ensures Lexes(Between, old(Rest()), r) && (r.Scanned? ==> pos > old(pos))
    {
      ghost var s := Rest();
      if IsIdentStart(At(0)) {
        r := Identifier();
      } else if IsDigit(At(0)) {
        r := Number();
      } else if At(0) == '\'' {
        r := CharLit();
        return;
      } else if At(0) == '"' {
        r := StrLit();
        return;
      } else {
        r := Punctuation();
      }
      CodeStands(s);
    }

    /** The whole source: the tokens of the token language, or a refusal when it has
        none. */
    method Tokenize() returns (r: Lexed)
      requires Valid() && pos == 0
      modifies this
      ensures r == Tokens(src)
    {
      var out: seq<Tok> := [];
      while true
        invariant Valid() && Tokens(src) == Before(out, Lex(Between, Rest()))
        decreases |src| - pos
      {
        var ok := SkipTrivia();
        if !ok { return Bad; }
        if pos == |src| { return Good(out + [Eof]); }
        var next := NextToken();
        if next.Failed? { return Bad; }
        out := out + [next.tok];
      }
    }
  }

  /** A token that is no literal in quotes is the one the token language reads next. */
  lemma CodeStands(s: string)
    requires |s| > 0 && AtToken(s) && s[0] != '\'' && s[0] != '"'
    ensures Code(s).NoToken? ==> Lex(Between, s) == Bad
    ensures Code(s).Token? ==> 0 < Code(s).len <= |s|
    ensures Code(s).Token? ==> Lex(Between, s) == LexSpec.Then(Code(s).tok, Lex(Between, s[Code(s).len..]))
  {
    CodeLocal(s, "");
  }

  /** The character a literal holds at the start of `s`. */
  function Glyph(s: string): (r: Escape)
    requires |s| > 0
    ensures r.Escape? ==> 0 < r.len <= |s|
  {
    if s[0] != '\\' then Escape(s[0], 1)
    else match Unescape(s[1..]) case NoEscape => NoEscape case Escape(c, n) => Escape(c, 1 + n)
  }

  lemma GlyphInStr(text: string, s: string)
    requires |s| > 0 && s[0] != '"'
    ensures Lex(InStr(text), s) == if Glyph(s).NoEscape? then Bad else Lex(InStr(text + [Glyph(s).c]), s[Glyph(s).len..])
  {
  }

  lemma GlyphQuoted(s: string)
    requires |s| > 0 && s[0] != '\0'
    ensures Lex(Quote, s) == if Glyph(s).NoEscape? then Bad else Lex(Close(Glyph(s).c), s[Glyph(s).len..])
  {
  }

  lemma QuoteOpens(s: string)
    requires |s| > 0 && s[0] == '\''
    ensures Lex(Between, s) == Lex(Quote, s[1..])
  {
  }

  lemma StrOpens(s: string)
    requires |s| > 0 && s[0] == '"'
    ensures Lex(Between, s) == Lex(InStr(""), s[1..])
  {
  }

  lemma DigitIsNoLetter(c: char)
    requires IsDigit(c)
    ensures !IsIdentStart(c)
  {
  }

  lemma DecimalSplits(s: string, m: nat, after: string)
    requires m == MantissaLen(s) && after == s[m..]
    ensures DecimalLen(s) == m + ExponentLen(after)
    ensures after[ExponentLen(after)..] == s[DecimalLen(s)..]
  {
    Tail(s, m, ExponentLen(after));
  }

  lemma DecimalParts(s: string, text: string, fraction: bool, exponent: bool, after: string)
    requires text == s[..DecimalLen(s)] && after == s[DecimalLen(s)..]
    requires fraction == (MantissaLen(s) > WholeLen(s)) && exponent == (DecimalLen(s) > MantissaLen(s))
    ensures exponent ==> |text| > 0
    ensures LexSpec.DecimalNumber(s) ==
            if fraction || exponent || FloatWidth(after) > 0 then
              if exponent && !IsDigit(text[|text| - 1]) then NoToken
              else Token(FloatTok(WithoutBars(text)), |text| + WidthLen(after))
            else IntToken(Value(WithoutBars(text), 10), |text| + WidthLen(after))
    ensures forall n | 0 <= n <= |after| :: after[n..] == s[|text| + n..]
  {
  }

  /** The integer written with `digits`, given what follows them. */
  function RadixValue(digits: string, radix: nat, after: string): Token {
    if WithoutBars(digits) == "" then NoToken
    else IntToken(Value(WithoutBars(digits), radix), WidthLen(after))
  }

  /** `t`, read `n` bytes further on. */
  function Shifted(t: Token, n: nat): Token {
    match t case NoToken => NoToken case Token(tok, len) => Token(tok, n + len)
  }

  lemma RadixParts(s: string, digits: string, after: string)
    requires |s| >= 2 && RadixLen(s[2..], Radix(s[1])) <= |s[2..]|
    requires digits == s[2..][..RadixLen(s[2..], Radix(s[1]))]
    requires after == s[2..][RadixLen(s[2..], Radix(s[1]))..]
    ensures |after| <= |s| && after == s[|s| - |after|..]
    ensures LexSpec.RadixNumber(s) == Shifted(RadixValue(digits, Radix(s[1]), after), |s| - |after|)
    ensures forall n | 0 <= n <= |after| :: after[n..] == s[|s| - |after| + n..]
  {
    var n := RadixLen(s[2..], Radix(s[1]));
    Tail(s, 2, n);
    assert |s| - |after| == 2 + n;
  }
}
