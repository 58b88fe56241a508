/** How tokens are written.  Each kind is described by its spelling, without the lexer; the
    lexer then reads any list of spelled tokens, with white space and comments between them,
    back as that list. */
module Spelling {
  import opened LexSpec
  import opened LexLines

  // ------------------------------------------------------------------ digits and escapes

  const LOWER: string := "0123456789abcdef"
  const UPPER: string := "0123456789ABCDEF"

  predicate IsDigitOf(c: char, v: nat) {
    v < 16 && (c == LOWER[v] || c == UPPER[v])
  }

  /** The escape letters and the bytes they stand for. */
  predicate StandsFor(k: char, c: char) {
    || (k == 'n' && c == '\n') || (k == 't' && c == '\t') || (k == 'r' && c == '\r') || (k == '0' && c == '\0')
    || (k == c && (k == '\\' || k == '\'' || k == '"'))
  }

  ghost predicate HexByte(h: char, l: char, c: char) {
    exists a: nat, b: nat :: IsDigitOf(h, a) && IsDigitOf(l, b) && c as int == 16 * a + b
  }

  /** What can stand behind a backslash for the byte `c`. */
  ghost predicate Escapes(u: string, c: char) {
    (|u| == 1 && StandsFor(u[0], c)) || (|u| == 3 && u[0] == 'x' && HexByte(u[1], u[2], c))
  }

  lemma DigitIs(c: char, v: nat)
    requires v < 16
    ensures IsDigitOf(c, v) <==> DigitValue(c) == v
  {
    if v < 10 {
      assert LOWER[v] == UPPER[v] == '0' + v as char;
    } else {
      assert LOWER[v] == 'a' + (v - 10) as char && UPPER[v] == 'A' + (v - 10) as char;
    }
  }

  lemma HexByteIs(h: char, l: char, c: char)
    ensures HexByte(h, l, c) <==> IsHex(h) && IsHex(l) && c as int == DigitValue(h) * 16 + DigitValue(l)
  {
    if IsHex(h) && IsHex(l) {
      DigitIs(h, DigitValue(h));
      DigitIs(l, DigitValue(l));
    }
    if HexByte(h, l, c) {
      var a: nat, b: nat :| IsDigitOf(h, a) && IsDigitOf(l, b) && c as int == 16 * a + b;
      DigitIs(h, a);
      DigitIs(l, b);
    }
  }

  /** Escapes are read exactly as listed. */
  lemma UnescapeExactly(s: string, c: char, n: nat)
    ensures Unescape(s) == Escape(c, n) <==> n <= |s| && Escapes(s[..n], c)
  {
    hide HexByte;
    if n == 3 <= |s| { HexByteIs(s[1], s[2], c); }
  }

  // ---------------------------------------------------------------- strings, characters

  /** One byte of a literal and the way it is written; `end` closes the literal. */
  datatype Unit = Unit(text: string, c: char)

  ghost predicate SpellsUnit(u: Unit, end: char) {
    || (u.text == [u.c] && u.c != '\\' && u.c != end)
    || (|u.text| > 0 && u.text[0] == '\\' && Escapes(u.text[1..], u.c))
  }

  ghost predicate SpellsUnits(us: seq<Unit>, end: char) {
    forall i | 0 <= i < |us| :: SpellsUnit(us[i], end)
  }

  function Written(us: seq<Unit>): string {
    if |us| == 0 then "" else us[0].text + Written(us[1..])
  }

  function Bytes(us: seq<Unit>): string {
    if |us| == 0 then "" else [us[0].c] + Bytes(us[1..])
  }

  /** Is the byte written as an escape? */
  predicate Escaped(u: Unit) {
    |u.text| > 0 && u.text[0] == '\\'
  }

  lemma EscapedReads(u: Unit, end: char, rest: string)
    requires SpellsUnit(u, end) && Escaped(u)
    ensures var s := u.text + rest;
            s[0] == '\\' && Unescape(s[1..]) == Escape(u.c, |u.text| - 1) && s[|u.text|..] == rest
  {
    hide Unescape, Escapes;
    var s := u.text + rest;
    assert s[1..][..|u.text| - 1] == u.text[1..];
    UnescapeExactly(s[1..], u.c, |u.text| - 1);
  }

  lemma StrStep(text: string, u: Unit, rest: string)
    requires SpellsUnit(u, '"')
    ensures Lex(InStr(text), u.text + rest) == Lex(InStr(text + [u.c]), rest)
  {
    hide Unescape, Escapes;
    var s := u.text + rest;
    if Escaped(u) {
      EscapedReads(u, '"', rest);
    } else {
      assert s[1..] == rest;
    }
  }

  /** A string is read up to its closing quote. */
  lemma {:induction false} StringReads(text: string, us: seq<Unit>, rest: string)
    requires SpellsUnits(us, '"')
    ensures Lex(InStr(text), Written(us) + (['"'] + rest)) == Then(StrTok(text + Bytes(us)), Lex(Between, rest))
    decreases |us|
  {
    var tail := ['"'] + rest;
    if |us| == 0 {
      assert Written(us) + tail == tail && tail[1..] == rest && text + Bytes(us) == text;
    } else {
      assert Written(us) + tail == us[0].text + (Written(us[1..]) + tail);
      StrStep(text, us[0], Written(us[1..]) + tail);
      StringReads(text + [us[0].c], us[1..], rest);
      assert text + [us[0].c] + Bytes(us[1..]) == text + Bytes(us);
    }
  }

  /** And nothing else is: what is read as a string is spelled like one. */
  lemma {:induction false} StringSpelled(text: string, s: string) returns (us: seq<Unit>, rest: string)
    requires Lex(InStr(text), s).Good?
    ensures SpellsUnits(us, '"') && s == Written(us) + (['"'] + rest)
    decreases |s|
  {
    hide Unescape, Escapes;
    if s[0] == '"' {
      us, rest := [], s[1..];
      assert s == "" + (['"'] + rest);
    } else {
      var first;
      if s[0] == '\\' {
        var e := Unescape(s[1..]);
        UnescapeExactly(s[1..], e.c, e.len);
        first := Unit(s[..1 + e.len], e.c);
        assert first.text[1..] == s[1..][..e.len];
      } else {
        first := Unit([s[0]], s[0]);
      }
      var n := |first.text|;
      assert s == first.text + s[n..];
      StrStep(text, first, s[n..]);
      var more;
      more, rest := StringSpelled(text + [first.c], s[n..]);
      us := [first] + more;
      assert us[1..] == more;
      assert s == Written(us) + (['"'] + rest);
    }
  }

  /** A character: any byte but NUL as it is, or an escape. */
  ghost predicate SpellsChar(u: Unit) {
    SpellsUnit(u, '\0')
  }

  lemma CharReads(u: Unit, rest: string)
    requires SpellsChar(u)
    ensures Lex(Quote, u.text + (['\''] + rest)) == Then(ChrTok(u.c), Lex(Between, rest))
  {
    hide Unescape, Escapes;
    var tail := ['\''] + rest;
    var s := u.text + tail;
    if Escaped(u) {
      EscapedReads(u, '\0', tail);
    } else {
      assert s[1..] == tail;
    }
    assert tail[1..] == rest;
  }

  /** And whatever is read as a character is spelled so. */
  lemma CharSpelled(s: string) returns (u: Unit, rest: string)
    requires Lex(Quote, s).Good?
    ensures SpellsChar(u) && s == u.text + (['\''] + rest)
  {
    hide Unescape, Escapes;
    if s[0] == '\\' {
      var e := Unescape(s[1..]);
      UnescapeExactly(s[1..], e.c, e.len);
      u, rest := Unit(s[..1 + e.len], e.c), s[2 + e.len..];
      assert u.text[1..] == s[1..][..e.len];
      assert s[1 + e.len..][0] == '\'';
    } else {
      u, rest := Unit([s[0]], s[0]), s[2..];
      assert s[1..][0] == '\'';
    }
  }

  // ---------------------------------------------------------------------------- numbers

  predicate DigitOf(c: char, radix: nat) {
    exists v: nat | v < radix :: IsDigitOf(c, v)
  }

  /** Digits of a radix, with bars anywhere among them, at least one of them a digit. */
  predicate IsNumeral(body: string, radix: nat) {
    (forall i | 0 <= i < |body| :: body[i] == '_' || DigitOf(body[i], radix)) && exists i | 0 <= i < |body| :: body[i] != '_'
  }

  /** The number that a numeral denotes, most significant digit first. */
  function Numeral(body: string, radix: nat): nat {
    if |body| == 0 then 0
    else
      var front, last := body[..|body| - 1], body[|body| - 1];
      if last == '_' then Numeral(front, radix) else Numeral(front, radix) * radix + DigitValue(last)
  }

  lemma {:induction false} SpanWhole(w: string, p: char -> bool)
    requires forall c | c in w :: p(c)
    ensures Span(w, p) == |w|
    decreases |w|
  {
    if |w| > 0 {
      assert w[0] in w && forall c | c in w[1..] :: c in w;
      SpanWhole(w[1..], p);
    }
  }

  lemma SpanFront(w: string, tail: string, p: char -> bool)
    requires (forall c | c in w :: p(c)) && (|tail| == 0 || !p(tail[0]))
    ensures Span(w + tail, p) == |w|
  {
    SpanLocal(w, tail, p);
    SpanWhole(w, p);
  }

  lemma {:induction false} BarsDropped(a: string, c: char)
    ensures WithoutBars(a + [c]) == WithoutBars(a) + if c == '_' then "" else [c]
    decreases |a|
  {
    if |a| == 0 {
      assert a + [c] == [c] && [c][1..] == "";
    } else {
      assert (a + [c])[1..] == a[1..] + [c];
      BarsDropped(a[1..], c);
    }
  }

  lemma NoDigits(radix: nat)
    ensures Value(WithoutBars(""), radix) == 0
  {
  }

  lemma ValueStep(digits: string, c: char, radix: nat)
    ensures Value(digits + [c], radix) == Value(digits, radix) * radix + DigitValue(c)
  {
    assert (digits + [c])[..|digits|] == digits;
  }

  lemma {:induction false} NumeralIs(body: string, radix: nat)
    ensures Value(WithoutBars(body), radix) == Numeral(body, radix)
    decreases |body|
  {
    hide Value, WithoutBars, DigitValue;
    if |body| == 0 {
      NoDigits(radix);
    } else {
      var front, last := body[..|body| - 1], body[|body| - 1];
      NumeralIs(front, radix);
      BarsDropped(front, last);
      assert body == front + [last];
      ValueStep(WithoutBars(front), last, radix);
      assert WithoutBars(front) + "" == WithoutBars(front);
    }
  }

  lemma {:induction false} SomeDigit(body: string)
    requires exists i | 0 <= i < |body| :: body[i] != '_'
    ensures WithoutBars(body) != ""
    decreases |body|
  {
    if body[0] == '_' {
      var i :| 0 <= i < |body| && body[i] != '_';
      assert body[1..][i - 1] != '_';
      SomeDigit(body[1..]);
    }
  }

  /** A magnitude as a signed 64-bit number. */
  function Signed(n: nat): int {
    if n < 0x8000_0000_0000_0000 then n else n - 0x1_0000_0000_0000_0000
  }

  predicate IsIntSuffix(w: string) {
    || w == "i8" || w == "i16" || w == "i32" || w == "i64" || w == "isize"
    || w == "u8" || w == "u16" || w == "u32" || w == "u64" || w == "usize"
  }

  predicate IsFloatSuffix(w: string) {
    w == "f32" || w == "f64"
  }

  lemma SuffixReads(w: string)
    requires w == "" || IsIntSuffix(w) || IsFloatSuffix(w)
    ensures WidthLen(w) == |w| && (FloatWidth(w) > 0 <==> IsFloatSuffix(w))
    ensures w != "" ==> w[0] == 'i' || w[0] == 'u' || w[0] == 'f'
  {
  }

  predicate MarkOf(c: char, radix: nat) {
    ((c == 'x' || c == 'X') && radix == 16) || ((c == 'b' || c == 'B') && radix == 2) || ((c == 'o' || c == 'O') && radix == 8)
  }

  lemma DigitsInRadix(body: string, radix: nat)
    requires (radix == 2 || radix == 8 || radix == 10 || radix == 16) && IsNumeral(body, radix)
    ensures forall c | c in body :: c == '_' || DigitValue(c) < radix
  {
    forall c | c in body ensures c == '_' || DigitValue(c) < radix {
      if c != '_' {
        var v: nat :| v < radix && IsDigitOf(c, v);
        DigitIs(c, v);
      }
    }
  }

  lemma RadixBody(radix: nat, body: string, suffix: string)
    requires (radix == 16 || radix == 2 || radix == 8) && IsNumeral(body, radix) && (suffix == "" || IsIntSuffix(suffix))
    ensures RadixLen(body + suffix, radix) == |body|
  {
    hide IsIntSuffix, IsFloatSuffix, IsNumeral, Span;
    DigitsInRadix(body, radix);
    SuffixReads(suffix);
    IntSuffixStarts(suffix);
    if radix == 16 {
      SpanFront(body, suffix, IsHexOrBar);
    } else if radix == 2 {
      SpanFront(body, suffix, IsBinOrBar);
    } else {
      SpanFront(body, suffix, IsOctOrBar);
    }
  }

  lemma IntSuffixStarts(w: string)
    requires w == "" || IsIntSuffix(w)
    ensures w != "" ==> w[0] == 'i' || w[0] == 'u'
    ensures FloatWidth(w) == 0
  {
  }

  lemma RadixCode(mark: char, radix: nat, body: string, suffix: string)
    requires MarkOf(mark, radix) && IsNumeral(body, radix) && (suffix == "" || IsIntSuffix(suffix))
    ensures var s := ['0', mark] + (body + suffix);
            Code(s) == if Numeral(body, radix) < 0x1_0000_0000_0000_0000
                       then Token.Token(IntTok(Signed(Numeral(body, radix))), |s|) else NoToken
  {
    hide IsIntSuffix, IsFloatSuffix, Span, Value, RadixLen, WithoutBars, WidthLen, Numeral;
    var s := ['0', mark] + (body + suffix);
    assert s[2..] == body + suffix && s[2..2 + |body|] == body && s[2 + |body|..] == suffix;
    RadixBody(radix, body, suffix);
    SuffixReads(suffix);
    NumeralIs(body, radix);
    SomeDigit(body);
    assert Code(s) == RadixNumber(s);
  }

  predicate IsDecimal(body: string) {
    |body| > 0 && IsDigit(body[0]) && forall i | 0 <= i < |body| :: IsDigitOrBar(body[i])
  }

  lemma DecimalCode(body: string, suffix: string)
    requires IsDecimal(body) && (suffix == "" || IsIntSuffix(suffix))
    ensures var s := body + suffix;
            Code(s) == if Numeral(body, 10) < 0x1_0000_0000_0000_0000
                       then Token.Token(IntTok(Signed(Numeral(body, 10))), |s|) else NoToken
  {
    hide IsIntSuffix, IsFloatSuffix, Value, WithoutBars, Numeral, WidthLen, FloatWidth;
    var s := body + suffix;
    SuffixReads(suffix);
    IntSuffixStarts(suffix);
    SpanFront(body, suffix, IsDigitOrBar);
    assert s[..|body|] == body && s[|body|..] == suffix;
    assert MantissaLen(s) == |body| && DecimalLen(s) == |body|;
    NumeralIs(body, 10);
    assert Code(s) == DecimalNumber(s);
  }

  // A number with a fraction, an exponent or a float suffix.

  predicate IsFraction(frac: string) {
    |frac| >= 2 && frac[0] == '.' && IsDigit(frac[1]) && forall i | 2 <= i < |frac| :: IsDigitOrBar(frac[i])
  }

  predicate IsExponent(exp: string) {
    && |exp| >= 2 && (exp[0] == 'e' || exp[0] == 'E') && IsDigit(exp[|exp| - 1])
    && (IsDigit(exp[1]) || exp[1] == '+' || exp[1] == '-') && forall i | 2 <= i < |exp| :: IsDigit(exp[i])
  }

  lemma FractionReads(frac: string, tail: string)
    requires IsFraction(frac) && (|tail| == 0 || !IsDigitOrBar(tail[0]))
    ensures FractionLen(frac + tail) == |frac|
  {
    assert (frac + tail)[1..] == frac[1..] + tail;
    SpanFront(frac[1..], tail, IsDigitOrBar);
  }

  lemma ExponentReads(exp: string, tail: string)
    requires IsExponent(exp) && (|tail| == 0 || !IsDigit(tail[0]))
    ensures ExponentLen(exp + tail) == |exp|
  {
    var sign := if IsDigit(exp[1]) then 0 else 1;
    assert (exp + tail)[1 + sign..] == exp[1 + sign..] + tail;
    SpanFront(exp[1 + sign..], tail, IsDigit);
  }

  predicate IsFloat(whole: string, frac: string, exp: string, suffix: string) {
    && IsDecimal(whole) && (frac == "" || IsFraction(frac)) && (exp == "" || IsExponent(exp))
    && (suffix == "" || IsIntSuffix(suffix) || IsFloatSuffix(suffix))
    && (frac != "" || exp != "" || IsFloatSuffix(suffix))
  }

  lemma MantissaReads(whole: string, frac: string, tail: string)
    requires IsDecimal(whole) && (frac == "" || IsFraction(frac))
    requires |tail| == 0 || (!IsDigitOrBar(tail[0]) && tail[0] != '.')
    ensures var s := whole + (frac + tail); WholeLen(s) == |whole| && MantissaLen(s) == |whole| + |frac|
  {
    var s := whole + (frac + tail);
    SpanFront(whole, frac + tail, IsDigitOrBar);
    assert s[|whole|..] == frac + tail;
    if frac == "" {
      assert frac + tail == tail;
    } else {
      FractionReads(frac, tail);
    }
  }

  lemma TailStarts(exp: string, suffix: string)
    requires (exp == "" || IsExponent(exp)) && (suffix == "" || IsIntSuffix(suffix) || IsFloatSuffix(suffix))
    ensures var tail := exp + suffix; |tail| == 0 || (!IsDigitOrBar(tail[0]) && tail[0] != '.')
    ensures |suffix| == 0 || !IsDigit(suffix[0])
  {
    hide IsIntSuffix, IsFloatSuffix;
    SuffixReads(suffix);
    if exp == "" { assert exp + suffix == suffix; }
  }

  lemma FloatLengths(whole: string, frac: string, exp: string, suffix: string)
    requires IsFloat(whole, frac, exp, suffix)
    ensures var s := whole + (frac + (exp + suffix));
            WholeLen(s) == |whole| && MantissaLen(s) == |whole| + |frac| && DecimalLen(s) == |whole| + |frac| + |exp|
  {
    hide IsIntSuffix, IsFloatSuffix, IsFraction, IsDecimal, IsExponent, WholeLen, MantissaLen, ExponentLen, IsDigitOrBar, IsDigit;
    var s, tail := whole + (frac + (exp + suffix)), exp + suffix;
    TailStarts(exp, suffix);
    MantissaReads(whole, frac, tail);
    assert s[|whole| + |frac|..] == tail;
    if exp == "" {
      assert tail == suffix;
      NoExponent(suffix);
    } else {
      ExponentReads(exp, suffix);
    }
  }

  lemma NoExponent(suffix: string)
    requires suffix == "" || IsIntSuffix(suffix) || IsFloatSuffix(suffix)
    ensures ExponentLen(suffix) == 0
  {
    hide IsIntSuffix, IsFloatSuffix;
    SuffixReads(suffix);
  }

  lemma FloatCode(whole: string, frac: string, exp: string, suffix: string)
    requires IsFloat(whole, frac, exp, suffix)
    ensures var s := whole + (frac + (exp + suffix));
            Code(s) == Token.Token(FloatTok(WithoutBars(whole + (frac + exp))), |s|)
  {
    hide IsIntSuffix, IsFloatSuffix, IsFraction, WholeLen, MantissaLen, DecimalLen, WidthLen, WithoutBars, FloatWidth;
    var s := whole + (frac + (exp + suffix));
    var end := |whole| + |frac| + |exp|;
    FloatLengths(whole, frac, exp, suffix);
    SuffixReads(suffix);
    assert s[..end] == whole + (frac + exp) && s[end..] == suffix;
    if exp != "" { assert s[end - 1] == exp[|exp| - 1]; }
    NoMark(whole, frac, exp, suffix);
    assert Code(s) == DecimalNumber(s);
  }

  lemma NoMark(whole: string, frac: string, exp: string, suffix: string)
    requires IsFloat(whole, frac, exp, suffix)
    ensures var s := whole + (frac + (exp + suffix)); |s| >= 2 ==> !IsRadixMark(s[1])
  {
    SuffixReads(suffix);
    var s := whole + (frac + (exp + suffix));
    if |whole| == 1 && |s| >= 2 {
      if frac != "" {
        assert s[1] == frac[0];
      } else if exp != "" {
        assert s[1] == exp[0];
      } else {
        assert s[1] == suffix[0];
      }
    }
  }

  // How far each part of a number reaches into what follows it.

  predicate IdentAhead(s: string) {
    |s| > 0 && IsIdentCont(s[0])
  }

  predicate IsSuffix(w: string) {
    IsIntSuffix(w) || IsFloatSuffix(w)
  }

  lemma {:induction false} SpanExactly(s: string, p: char -> bool)
    ensures forall i | 0 <= i < Span(s, p) :: p(s[i])
    ensures Span(s, p) < |s| ==> !p(s[Span(s, p)])
    decreases |s|
  {
    if |s| > 0 && p(s[0]) {
      SpanExactly(s[1..], p);
      forall i | 0 <= i < Span(s, p) ensures p(s[i]) {
        if i > 0 { assert s[i] == s[1..][i - 1]; }
      }
    }
  }

  /** A width suffix is one of the twelve, and not the beginning of a longer word. */
  lemma WidthExactly(s: string)
    ensures WidthLen(s) <= |s|
    ensures WidthLen(s) > 0 ==> IsSuffix(s[..WidthLen(s)]) && !IdentAhead(s[WidthLen(s)..])
    ensures forall n: nat | n <= |s| && IsSuffix(s[..n]) && !IdentAhead(s[n..]) :: WidthLen(s) == n
  {
    WidthIsSuffix(s);
    forall n: nat | n <= |s| && IsSuffix(s[..n]) && !IdentAhead(s[n..]) ensures WidthLen(s) == n {
      SuffixIsWidth(s, n);
    }
  }

  lemma WidthIsSuffix(s: string)
    ensures WidthLen(s) <= |s|
    ensures WidthLen(s) > 0 ==> IsSuffix(s[..WidthLen(s)]) && !IdentAhead(s[WidthLen(s)..])
  {
    var n := WidthLen(s);
    if n > 0 {
      var w := s[..n];
      assert n == 2 ==> w == [s[0], s[1]];
      assert n == 3 ==> w == [s[0], s[1], s[2]];
      assert n == 5 ==> w == [s[0], s[1], s[2], s[3], s[4]];
    }
  }

  lemma SuffixIsWidth(s: string, n: nat)
    requires n <= |s| && IsSuffix(s[..n]) && !IdentAhead(s[n..])
    ensures WidthLen(s) == n
  {
    var w := s[..n];
    assert forall i | 0 <= i < n :: s[i] == w[i];
    assert Peek(s, n) == if n < |s| then s[n..][0] else '\0';
  }

  /** A fraction needs a digit right behind the point - `0..9` has none - and takes all
      digits and bars after it. */
  lemma FractionExactly(s: string)
    ensures var n := FractionLen(s);
            if n > 0 then IsFraction(s[..n]) && (n < |s| ==> !IsDigitOrBar(s[n]))
            else forall m | 0 <= m <= |s| :: !IsFraction(s[..m])
  {
    if FractionLen(s) > 0 { SpanExactly(s[1..], IsDigitOrBar); }
  }

  /** An exponent takes its sign and all digits after it. */
  lemma ExponentExactly(s: string)
    ensures var n := ExponentLen(s);
            if |s| > 0 && (s[0] == 'e' || s[0] == 'E') then
              var k := if |s| > 1 && (s[1] == '+' || s[1] == '-') then 2 else 1;
              k <= n && (forall i | k <= i < n :: IsDigit(s[i])) && (n < |s| ==> !IsDigit(s[n]))
            else n == 0
  {
    if ExponentLen(s) > 0 {
      var k := if Peek(s, 1) == '+' || Peek(s, 1) == '-' then 2 else 1;
      var tail := s[k..];
      SpanExactly(tail, IsDigit);
      forall i | k <= i < ExponentLen(s) ensures IsDigit(s[i]) { assert s[i] == tail[i - k]; }
    }
  }

  /** An `e` and perhaps a sign. */
  predicate IsBareExponent(exp: string) {
    && 1 <= |exp| <= 2 && (exp[0] == 'e' || exp[0] == 'E')
    && (|exp| == 2 ==> exp[1] == '+' || exp[1] == '-')
  }

  lemma BareReads(exp: string)
    requires IsBareExponent(exp)
    ensures |exp| > 0 && ExponentLen(exp) == |exp| && !IsDigit(exp[|exp| - 1]) && !IsDigitOrBar(exp[0]) && exp[0] != '.'
  {
    assert exp[|exp|..] == "";
  }

  /** An exponent without digits is no number. */
  lemma ExponentNeedsDigits(whole: string, frac: string, exp: string)
    requires IsDecimal(whole) && (frac == "" || IsFraction(frac)) && IsBareExponent(exp)
    ensures Code(whole + (frac + exp)) == NoToken
  {
    hide IsFraction, IsDecimal, WholeLen, MantissaLen, DecimalLen, DecimalNumber, IsDigit, IsBareExponent, Code;
    DecimalAhead(whole, frac, exp);
    BareLengths(whole, frac, exp);
    Malformed(whole + (frac + exp));
  }

  lemma BareLengths(whole: string, frac: string, exp: string)
    requires IsDecimal(whole) && (frac == "" || IsFraction(frac)) && IsBareExponent(exp)
    ensures var s := whole + (frac + exp);
            |s| > 0 && WholeLen(s) <= MantissaLen(s) < DecimalLen(s) == |s| && !IsDigit(s[|s| - 1])
  {
    hide IsFraction, IsDecimal, WholeLen, MantissaLen, ExponentLen, IsDigit, IsDigitOrBar, IsBareExponent;
    var s := whole + (frac + exp);
    BareReads(exp);
    MantissaReads(whole, frac, exp);
    assert s[|whole| + |frac|..] == exp;
    assert s[|s| - 1] == exp[|exp| - 1];
  }

  lemma Malformed(s: string)
    requires |s| > 0 && WholeLen(s) <= MantissaLen(s) < DecimalLen(s) == |s| && !IsDigit(s[|s| - 1])
    ensures DecimalNumber(s) == NoToken
  {
    hide WholeLen, MantissaLen, DecimalLen, IsDigit, WidthLen, FloatWidth, WithoutBars;
  }

  lemma DecimalAhead(whole: string, frac: string, exp: string)
    requires IsDecimal(whole) && (frac == "" || IsFraction(frac)) && IsBareExponent(exp)
    ensures var s := whole + (frac + exp); Code(s) == DecimalNumber(s)
  {
    var s := whole + (frac + exp);
    if |whole| == 1 { assert s[1] == if frac == "" then exp[0] else frac[0]; }
  }

  // -------------------------------------------------------------------------- operators

  predicate IsSingle(c: char) {
    c in "+-*/%&|^~!=<>(){}[],;.:"
  }

  predicate IsPair(a: char, b: char) {
    || (a == '=' && b == '=') || (a == '!' && b == '=') || (a == '<' && b == '=') || (a == '>' && b == '=')
    || (a == '+' && b == '=') || (a == '-' && b == '=') || (a == '*' && b == '=') || (a == '/' && b == '=')
    || (a == '%' && b == '=') || (a == '&' && b == '&') || (a == '|' && b == '|') || (a == ':' && b == ':')
    || (a == '.' && b == '.') || (a == '<' && b == '<') || (a == '>' && b == '>')
  }

  predicate IsOperator(o: string) {
    (|o| == 1 && IsSingle(o[0])) || (|o| == 2 && IsPair(o[0], o[1])) || o == "..="
  }

  lemma SingleIs(c: char)
    ensures IsSingle(c) <==> IsOneByteOp(c)
  {
  }

  /** The lexer takes the longest operator there is. */
  lemma LongestOperator(s: string)
    requires |s| > 0
    ensures Operator(s).Token? ==>
              && Operator(s).len <= |s| && Operator(s).tok == Op(s[..Operator(s).len]) && IsOperator(s[..Operator(s).len])
              && forall m | Operator(s).len < m <= |s| :: !IsOperator(s[..m])
    ensures Operator(s) == NoToken ==> forall m | 0 <= m <= |s| :: !IsOperator(s[..m])
  {
    hide IsSingle;
    SingleIs(s[0]);
    forall m | 0 <= m <= |s| ensures IsOperator(s[..m]) ==> Operator(s).Token? && m <= Operator(s).len {
      if IsOperator(s[..m]) && m == 3 { assert s[..3] == "..="; assert s[0] == '.' && s[1] == '.' && s[2] == '='; }
    }
    if Operator(s).Token? { assert s[..Operator(s).len] == Operator(s).tok.text; }
  }

  lemma OperatorCode(o: string)
    requires IsOperator(o)
    ensures Code(o) == Token.Token(Op(o), |o|)
  {
    LongestOperator(o);
    assert o[..|o|] == o;
    SingleIs(o[0]);
  }

  // --------------------------------------------------------- white space and comments

  /** The inside of a block comment: text, and comments within it. */
  datatype Inside = Prose(text: string) | Inner(parts: seq<Inside>)

  datatype Trivium = Blank(c: char) | LineComment(text: string) | BlockComment(parts: seq<Inside>)

  /** Prose has no slash, and no star at its end, where a slash could follow. */
  predicate IsProse(text: string) {
    '/' !in text && (|text| > 0 ==> text[|text| - 1] != '*')
  }

  predicate ProperInside(parts: seq<Inside>)
    decreases parts
  {
    |parts| == 0 ||
    ((match parts[0] case Prose(text) => IsProse(text) case Inner(ps) => ProperInside(ps)) && ProperInside(parts[1..]))
  }

  function InsideText(parts: seq<Inside>): string
    decreases parts
  {
    if |parts| == 0 then ""
    else
      (match parts[0] case Prose(text) => text case Inner(ps) => "/*" + (InsideText(ps) + "*/")) + InsideText(parts[1..])
  }

  predicate ProperTrivium(t: Trivium) {
    match t
    case Blank(c) => c == ' ' || c == '\t' || c == '\r' || c == '\n'
    case LineComment(text) => '\n' !in text
    case BlockComment(parts) => ProperInside(parts)
  }

  /** A line comment with the newline that ends it. */
  function TriviumText(t: Trivium): string {
    match t
    case Blank(c) => [c]
    case LineComment(text) => "//" + (text + "\n")
    case BlockComment(parts) => "/*" + (InsideText(parts) + "*/")
  }

  lemma {:induction false} ProseSkipped(d: nat, text: string, rest: string)
    requires IsProse(text)
    ensures Lex(Comment(d), text + rest) == Lex(Comment(d), rest)
    decreases |text|
  {
    var s := text + rest;
    if |text| == 0 {
      assert s == rest;
    } else {
      assert s[0] == text[0] && text[0] in text && s[1..] == text[1..] + rest;
      if |text| > 1 { assert s[1] == text[1] && text[1] in text; }
      ProseSkipped(d, text[1..], rest);
    }
  }

  lemma CommentOpens(d: nat, rest: string)
    ensures Lex(Comment(d), "/*" + rest) == Lex(Comment(d + 1), rest)
    ensures Lex(Between, "/*" + rest) == Lex(Comment(1), rest)
  {
    assert ("/*" + rest)[2..] == rest;
  }

  lemma CommentCloses(d: nat, rest: string)
    ensures Lex(Comment(d), "*/" + rest) == Lex(if d <= 1 then Between else Comment(d - 1), rest)
  {
    assert ("*/" + rest)[2..] == rest;
  }

  lemma Nest(open: string, a: string, end: string, b: string, c: string)
    ensures open + (a + end) + b + c == open + (a + (end + (b + c)))
  {
  }

  lemma Three(a: string, b: string, c: string)
    ensures a + b + c == a + (b + c)
  {
  }

  lemma {:induction false} InsideSkipped(d: nat, parts: seq<Inside>, rest: string)
    requires d > 0 && ProperInside(parts)
    ensures Lex(Comment(d), InsideText(parts) + rest) == Lex(Comment(d), rest)
    decreases parts
  {
    hide Lex, IsProse;
    if |parts| == 0 {
      assert "" + rest == rest;
    } else {
      var more := InsideText(parts[1..]);
      InsideSkipped(d, parts[1..], rest);
      if parts[0].Prose? {
        ProseSkipped(d, parts[0].text, more + rest);
        Three(parts[0].text, more, rest);
      } else {
        var inner, tail := InsideText(parts[0].parts), "*/" + (more + rest);
        CommentOpens(d, inner + tail);
        InsideSkipped(d + 1, parts[0].parts, tail);
        CommentCloses(d + 1, more + rest);
        Nest("/*", inner, "*/", more, rest);
      }
    }
  }

  lemma LineCommentSkipped(text: string, rest: string)
    requires '\n' !in text
    ensures Lex(Between, "//" + (text + "\n") + rest) == Lex(Between, rest)
  {
    var s := "//" + (text + "\n") + rest;
    assert s == ("//" + text) + ("\n" + rest);
    SpanFront("//" + text, "\n" + rest, NotNewline);
    assert s[2 + |text|..] == "\n" + rest && ("\n" + rest)[1..] == rest;
  }

  /** White space and comments, nested to any depth, mean nothing. */
  lemma TriviumSkipped(t: Trivium, rest: string)
    requires ProperTrivium(t)
    ensures Lex(Between, TriviumText(t) + rest) == Lex(Between, rest)
  {
    if t.Blank? {
      assert ([t.c] + rest)[1..] == rest;
    } else if t.LineComment? {
      LineCommentSkipped(t.text, rest);
    } else {
      BlockCommentSkipped(t.parts, rest);
    }
  }

  lemma BlockCommentSkipped(parts: seq<Inside>, rest: string)
    requires ProperInside(parts)
    ensures Lex(Between, "/*" + (InsideText(parts) + "*/") + rest) == Lex(Between, rest)
  {
    hide Lex, InsideText, ProperInside;
    var inner, tail := InsideText(parts), "*/" + rest;
    CommentOpens(0, inner + tail);
    InsideSkipped(1, parts, tail);
    CommentCloses(1, rest);
    assert "/*" + (inner + "*/") + rest == "/*" + (inner + tail);
  }

  predicate ProperTrivia(ts: seq<Trivium>) {
    forall i | 0 <= i < |ts| :: ProperTrivium(ts[i])
  }

  function TriviaText(ts: seq<Trivium>): string {
    if |ts| == 0 then "" else TriviumText(ts[0]) + TriviaText(ts[1..])
  }

  lemma {:induction false} TriviaSkipped(ts: seq<Trivium>, rest: string)
    requires ProperTrivia(ts)
    ensures Lex(Between, TriviaText(ts) + rest) == Lex(Between, rest)
    decreases |ts|
  {
    if |ts| == 0 {
      assert "" + rest == rest;
    } else {
      TriviaSkipped(ts[1..], rest);
      TriviumSkipped(ts[0], TriviaText(ts[1..]) + rest);
      assert TriviaText(ts) + rest == TriviumText(ts[0]) + (TriviaText(ts[1..]) + rest);
    }
  }

  // --------------------------------------------------------------------- whole sources

  /** The ways to write a token. */
  datatype Form =
    | WordForm(word: string)
    | RadixForm(mark: char, radix: nat, body: string, suffix: string)
    | DecimalForm(body: string, suffix: string)
    | FloatForm(whole: string, frac: string, exp: string, suffix: string)
    | CharForm(unit: Unit)
    | StringForm(units: seq<Unit>)
    | OperatorForm(op: string)

  ghost predicate ProperForm(f: Form) {
    match f
    case WordForm(w) => |w| > 0 && IsIdentStart(w[0]) && forall i | 0 <= i < |w| :: IsIdentCont(w[i])
    case RadixForm(mark, radix, body, suffix) =>
      && MarkOf(mark, radix) && IsNumeral(body, radix) && (suffix == "" || IsIntSuffix(suffix))
      && Numeral(body, radix) < 0x1_0000_0000_0000_0000
    case DecimalForm(body, suffix) =>
      IsDecimal(body) && (suffix == "" || IsIntSuffix(suffix)) && Numeral(body, 10) < 0x1_0000_0000_0000_0000
    case FloatForm(whole, frac, exp, suffix) => IsFloat(whole, frac, exp, suffix)
    case CharForm(u) => SpellsChar(u)
    case StringForm(us) => SpellsUnits(us, '"')
    case OperatorForm(o) => IsOperator(o)
  }

  function FormText(f: Form): string {
    match f
    case WordForm(w) => w
    case RadixForm(mark, _, body, suffix) => ['0', mark] + (body + suffix)
    case DecimalForm(body, suffix) => body + suffix
    case FloatForm(whole, frac, exp, suffix) => whole + (frac + (exp + suffix))
    case CharForm(u) => ['\''] + (u.text + ['\''])
    case StringForm(us) => ['"'] + (Written(us) + ['"'])
    case OperatorForm(o) => o
  }

  /** The token that is written so. */
  function Meaning(f: Form): Tok {
    match f
    case WordForm(w) => Word(w)
    case RadixForm(_, radix, body, _) => IntTok(Signed(Numeral(body, radix)))
    case DecimalForm(body, _) => IntTok(Signed(Numeral(body, 10)))
    case FloatForm(whole, frac, exp, _) => FloatTok(WithoutBars(whole + (frac + exp)))
    case CharForm(u) => ChrTok(u.c)
    case StringForm(us) => StrTok(Bytes(us))
    case OperatorForm(o) => Op(o)
  }

  lemma CodeForm(f: Form)
    requires ProperForm(f) && !f.CharForm? && !f.StringForm?
    ensures StartsCode(FormText(f)) && Code(FormText(f)) == Token.Token(Meaning(f), |FormText(f)|)
  {
    hide Code, IsOperator, IsNumeral, IsIntSuffix, IsFloatSuffix, IsFraction, IsExponent, IsDecimal, Numeral;
    match f
    case WordForm(w) => WordCode(w);
    case RadixForm(mark, radix, body, suffix) => RadixCode(mark, radix, body, suffix);
    case DecimalForm(body, suffix) =>
      DecimalCode(body, suffix);
      DecimalStarts(body, suffix);
    case FloatForm(whole, frac, exp, suffix) =>
      FloatCode(whole, frac, exp, suffix);
      DecimalStarts(whole, frac + (exp + suffix));
    case OperatorForm(o) =>
      OperatorCode(o);
      OperatorStarts(o);
  }

  lemma WordCode(w: string)
    requires ProperForm(WordForm(w))
    ensures Code(w) == Token.Token(Word(w), |w|)
  {
    SpanWhole(w, IsIdentCont);
    assert w[..|w|] == w;
  }

  /** Neither white space, a quote nor a comment. */
  predicate StartsCode(s: string) {
    && |s| > 0 && !IsSpace(s[0]) && s[0] != '\'' && s[0] != '"'
    && (s[0] == '/' ==> Peek(s, 1) != '/' && Peek(s, 1) != '*')
  }

  lemma DecimalStarts(body: string, tail: string)
    requires IsDecimal(body)
    ensures StartsCode(body + tail)
  {
  }

  lemma OperatorStarts(o: string)
    requires IsOperator(o)
    ensures StartsCode(o)
  {
    if |o| == 1 { SingleStarts(o[0]); }
  }

  lemma SingleStarts(c: char)
    requires IsSingle(c)
    ensures !IsSpace(c) && c != '\'' && c != '"'
  {
    SingleIs(c);
  }

  lemma CodeReads(s: string, t: Tok, rest: string)
    requires StartsCode(s) && Code(s) == Token.Token(t, |s|) && Gap(rest)
    ensures Lex(Between, s + rest) == Then(t, Lex(Between, rest))
  {
    hide Code;
    CodeLocal(s, rest);
    assert (s + rest)[|s|..] == rest && (s + rest)[0] == s[0];
    if s[0] == '/' { assert Peek(s + rest, 1) == if |s| > 1 then s[1] else Peek(rest, 0); }
  }

  /** A spelled token is read, up to where a gap follows. */
  lemma FormReads(f: Form, rest: string)
    requires ProperForm(f) && Gap(rest)
    ensures Lex(Between, FormText(f) + rest) == Then(Meaning(f), Lex(Between, rest))
  {
    hide ProperForm, Meaning, Code;
    if f.CharForm? {
      CharFormReads(f.unit, rest);
    } else if f.StringForm? {
      StringFormReads(f.units, rest);
    } else {
      CodeForm(f);
      CodeReads(FormText(f), Meaning(f), rest);
    }
  }

  lemma CharFormReads(u: Unit, rest: string)
    requires ProperForm(CharForm(u))
    ensures Lex(Between, FormText(CharForm(u)) + rest) == Then(Meaning(CharForm(u)), Lex(Between, rest))
  {
    hide SpellsUnit;
    var s := FormText(CharForm(u)) + rest;
    assert s[0] == '\'' && s[1..] == u.text + (['\''] + rest);
    CharReads(u, rest);
  }

  lemma StringFormReads(us: seq<Unit>, rest: string)
    requires ProperForm(StringForm(us))
    ensures Lex(Between, FormText(StringForm(us)) + rest) == Then(Meaning(StringForm(us)), Lex(Between, rest))
  {
    hide SpellsUnits;
    var s := FormText(StringForm(us)) + rest;
    assert s[0] == '"' && s[1..] == Written(us) + (['"'] + rest);
    StringReads("", us, rest);
    assert "" + Bytes(us) == Bytes(us);
  }

  /** A token and what stands behind it. */
  datatype Item = Item(form: Form, trivia: seq<Trivium>)

  /** White space behind every token, but not needed at the end of the source. */
  ghost predicate ProperItems(items: seq<Item>) {
    forall i | 0 <= i < |items| ::
      && ProperForm(items[i].form) && ProperTrivia(items[i].trivia)
      && (if |items[i].trivia| == 0 then i == |items| - 1 else items[i].trivia[0].Blank?)
  }

  function ItemsText(items: seq<Item>): string {
    if |items| == 0 then ""
    else FormText(items[0].form) + (TriviaText(items[0].trivia) + ItemsText(items[1..]))
  }

  function Meanings(items: seq<Item>): seq<Tok> {
    if |items| == 0 then [] else [Meaning(items[0].form)] + Meanings(items[1..])
  }

  lemma {:induction false} ItemsRead(items: seq<Item>)
    requires ProperItems(items)
    ensures Lex(Between, ItemsText(items)) == Good(Meanings(items) + [Eof])
    decreases |items|
  {
    hide ProperForm, FormText, Meaning;
    if |items| == 0 {
      assert Meanings(items) + [Eof] == [Eof];
    } else {
      var item, later := items[0], ItemsText(items[1..]);
      RestIsProper(items);
      ItemsRead(items[1..]);
      TriviaSkipped(item.trivia, later);
      GapBehind(items);
      FormReads(item.form, TriviaText(item.trivia) + later);
      assert [Meaning(item.form)] + (Meanings(items[1..]) + [Eof]) == Meanings(items) + [Eof];
    }
  }

  lemma RestIsProper(items: seq<Item>)
    requires ProperItems(items) && |items| > 0
    ensures ProperItems(items[1..])
  {
    hide ProperForm, ProperTrivia;
    forall i | 0 <= i < |items| - 1
      ensures var item := items[1..][i];
              && ProperForm(item.form) && ProperTrivia(item.trivia)
              && (if |item.trivia| == 0 then i == |items| - 2 else item.trivia[0].Blank?)
    {
      assert items[1..][i] == items[i + 1];
    }
  }

  lemma GapBehind(items: seq<Item>)
    requires ProperItems(items) && |items| > 0
    ensures Gap(TriviaText(items[0].trivia) + ItemsText(items[1..]))
  {
    hide ProperForm;
    var ts := items[0].trivia;
    if |ts| == 0 {
      assert items[1..] == [];
    } else {
      assert ProperTrivium(ts[0]);
    }
  }

  /** Any list of spelled tokens lexes to their meanings, whatever white space and comments
      stand in front of them and between them. */
  lemma SpelledLexes(lead: seq<Trivium>, items: seq<Item>)
    requires ProperTrivia(lead) && ProperItems(items)
    ensures Tokens(TriviaText(lead) + ItemsText(items)) == Good(Meanings(items) + [Eof])
  {
    TriviaSkipped(lead, ItemsText(items));
    ItemsRead(items);
  }
}
