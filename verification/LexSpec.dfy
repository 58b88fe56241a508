/** The token language of the lexer.  A source is a sequence of bytes, each written
    as the character with that code.  `Lex` reads it from left to right; `Mode` is
    where the lexer stands: between tokens, in a block comment, in a string, or in a
    character literal. */
module LexSpec {
  datatype Tok =
    | Word(text: string)            // identifier or keyword: the kind is a function of the text
    | IntTok(value: int)            // the 64-bit pattern, read as signed
    | FloatTok(text: string)
    | ChrTok(c: char)
    | StrTok(text: string)
    | Op(text: string)
    | Eof

  datatype Lexed = Bad | Good(toks: seq<Tok>)

  datatype Mode =
    | Between
    | Comment(depth: nat)
    | InStr(text: string)
    | Quote                         // just after the opening quote of a character
    | Close(c: char)                // after the character, before the closing quote

  datatype Token = NoToken | Token(tok: Tok, len: nat)

  function Peek(s: string, i: nat): char {
    if i < |s| then s[i] else '\0'
  }

  predicate IsSpace(c: char) { c == ' ' || c == '\t' || c == '\r' || c == '\n' }
  predicate IsDigit(c: char) { '0' <= c <= '9' }
  predicate IsAlpha(c: char) { 'a' <= c <= 'z' || 'A' <= c <= 'Z' }
  predicate IsIdentStart(c: char) { IsAlpha(c) || c == '_' }
  predicate IsIdentCont(c: char) { IsIdentStart(c) || IsDigit(c) }
  predicate IsDigitOrBar(c: char) { IsDigit(c) || c == '_' }

  function DigitValue(c: char): nat {
    if IsDigit(c) then (c as int) - ('0' as int)
    else if 'a' <= c <= 'f' then (c as int) - ('a' as int) + 10
    else if 'A' <= c <= 'F' then (c as int) - ('A' as int) + 10
    else 99
  }

  predicate IsHex(c: char) { DigitValue(c) < 16 }
  predicate IsHexOrBar(c: char) { IsHex(c) || c == '_' }
  predicate IsOctOrBar(c: char) { DigitValue(c) < 8 || c == '_' }
  predicate IsBinOrBar(c: char) { DigitValue(c) < 2 || c == '_' }

  /** Length of the longest prefix whose bytes all satisfy `p`. */
  function Span(s: string, p: char -> bool): (n: nat)
    ensures n <= |s|
  {
    if |s| == 0 || !p(s[0]) then 0 else 1 + Span(s[1..], p)
  }

  function WithoutBars(s: string): string {
    if |s| == 0 then "" else (if s[0] == '_' then "" else [s[0]]) + WithoutBars(s[1..])
  }

  function Value(digits: string, radix: nat): nat {
    if |digits| == 0 then 0
    else Value(digits[..|digits| - 1], radix) * radix + DigitValue(digits[|digits| - 1])
  }

  const TWO_TO_THE_63: nat := 0x8000_0000_0000_0000
  const TWO_TO_THE_64: nat := 0x1_0000_0000_0000_0000

  /** A magnitude that fits 64 bits, reinterpreted as signed. */
  function IntToken(magnitude: nat, len: nat): Token {
    if magnitude >= TWO_TO_THE_64 then NoToken
    else Token(IntTok(if magnitude < TWO_TO_THE_63 then magnitude else magnitude - TWO_TO_THE_64), len)
  }

  /** Length of a float width suffix (`f32`, `f64`) at the start of `s`, 0 if none. */
  function FloatWidth(s: string): nat {
    var digits := (Peek(s, 1) == '3' && Peek(s, 2) == '2') || (Peek(s, 1) == '6' && Peek(s, 2) == '4');
    if Peek(s, 0) == 'f' && digits && !IsIdentCont(Peek(s, 3)) then 3 else 0
  }

  /** Length of an integer width suffix (`i8` .. `u64`, `isize`, `usize`). */
  function IntWidth(s: string): nat {
    if Peek(s, 0) != 'i' && Peek(s, 0) != 'u' then 0
    else if Peek(s, 1) == '8' && !IsIdentCont(Peek(s, 2)) then 2
    else if IsWidePair(Peek(s, 1), Peek(s, 2)) && !IsIdentCont(Peek(s, 3)) then 3
    else if Peek(s, 1) == 's' && Peek(s, 2) == 'i' && Peek(s, 3) == 'z' && Peek(s, 4) == 'e' &&
            !IsIdentCont(Peek(s, 5)) then 5
    else 0
  }

  predicate IsWidePair(a: char, b: char) {
    (a == '1' && b == '6') || (a == '3' && b == '2') || (a == '6' && b == '4')
  }

  function WidthLen(s: string): nat {
    if FloatWidth(s) > 0 then FloatWidth(s) else IntWidth(s)
  }

  predicate IsRadixMark(c: char) {
    c == 'x' || c == 'X' || c == 'b' || c == 'B' || c == 'o' || c == 'O'
  }

  function Radix(mark: char): nat {
    if mark == 'x' || mark == 'X' then 16 else if mark == 'b' || mark == 'B' then 2 else 8
  }

  function RadixLen(s: string, radix: nat): nat {
    if radix == 16 then Span(s, IsHexOrBar) else if radix == 2 then Span(s, IsBinOrBar) else Span(s, IsOctOrBar)
  }

  function RadixNumber(s: string): Token
    requires |s| >= 2
  {
    var n := RadixLen(s[2..], Radix(s[1]));
    if n > |s[2..]| then NoToken
    else
      var raw := WithoutBars(s[2..2 + n]);
      if raw == "" then NoToken
      else IntToken(Value(raw, Radix(s[1])), 2 + n + WidthLen(s[2 + n..]))
  }

  function FractionLen(s: string): (n: nat)
    ensures n <= |s|
  {
    if Peek(s, 0) == '.' && IsDigit(Peek(s, 1)) then 1 + Span(s[1..], IsDigitOrBar) else 0
  }

  /** `e`, an optional sign, digits; the digits may be missing (that is an error later). */
  function ExponentLen(s: string): (n: nat)
    ensures n <= |s|
  {
    if Peek(s, 0) == 'e' || Peek(s, 0) == 'E' then
      var sign := if Peek(s, 1) == '+' || Peek(s, 1) == '-' then 1 else 0;
      1 + sign + Span(s[1 + sign..], IsDigit)
    else 0
  }

  /** Whole part, fraction and exponent of a decimal number. */
  function WholeLen(s: string): (n: nat)
    ensures n <= |s|
  {
    Span(s, IsDigitOrBar)
  }

  function MantissaLen(s: string): (n: nat)
    ensures n <= |s|
  {
    WholeLen(s) + FractionLen(s[WholeLen(s)..])
  }

  function DecimalLen(s: string): (n: nat)
    ensures n <= |s|
  {
    MantissaLen(s) + ExponentLen(s[MantissaLen(s)..])
  }

  function DecimalNumber(s: string): Token {
    var end := DecimalLen(s);
    var len := end + WidthLen(s[end..]);
    var text := WithoutBars(s[..end]);
    if end > WholeLen(s) || FloatWidth(s[end..]) > 0 then
      if end > MantissaLen(s) && !IsDigit(s[end - 1]) then NoToken else Token(FloatTok(text), len)
    else IntToken(Value(text, 10), len)
  }

  predicate IsTwoByteOp(a: char, b: char) {
    || (b == '=' && (a == '=' || a == '!' || a == '<' || a == '>' || a == '+' || a == '-' || a == '*' || a == '/' || a == '%'))
    || (a == b && (a == '&' || a == '|' || a == ':' || a == '.' || a == '<' || a == '>'))
  }

  predicate IsOneByteOp(c: char) {
    || c == '+' || c == '-' || c == '*' || c == '/' || c == '%' || c == '&' || c == '|' || c == '^' || c == '~'
    || c == '!' || c == '=' || c == '<' || c == '>' || c == '(' || c == ')' || c == '{' || c == '}' || c == '['
    || c == ']' || c == ',' || c == ';' || c == '.' || c == ':'
  }

  function Operator(s: string): Token
    requires |s| > 0
  {
    if |s| >= 2 && IsTwoByteOp(s[0], s[1]) then
      if s[0] == '.' && Peek(s, 2) == '=' then Token(Op("..="), 3) else Token(Op([s[0], s[1]]), 2)
    else if IsOneByteOp(s[0]) then Token(Op([s[0]]), 1)
    else NoToken
  }

  /** The token at the start of `s` when that is no literal in quotes. */
  function Code(s: string): Token
    requires |s| > 0
  {
    if IsIdentStart(s[0]) then
      Token(Word(s[..Span(s, IsIdentCont)]), Span(s, IsIdentCont))
    else if IsDigit(s[0]) then
      if s[0] == '0' && |s| >= 2 && IsRadixMark(s[1]) then RadixNumber(s) else DecimalNumber(s)
    else Operator(s)
  }

  datatype Escape = NoEscape | Escape(c: char, len: nat)

  /** The escape after a backslash. */
  function Unescape(s: string): (r: Escape)
    ensures r.Escape? ==> 0 < r.len <= |s|
  {
    if |s| == 0 then NoEscape
    else match s[0]
      case 'n' => Escape('\n', 1)
      case 't' => Escape('\t', 1)
      case 'r' => Escape('\r', 1)
      case '\\' => Escape('\\', 1)
      case '\'' => Escape('\'', 1)
      case '"' => Escape('"', 1)
      case '0' => Escape('\0', 1)
      case 'x' =>
        if |s| >= 3 && IsHex(s[1]) && IsHex(s[2]) then
          Escape((DigitValue(s[1]) * 16 + DigitValue(s[2])) as char, 3)
        else NoEscape
      case _ => NoEscape
  }

  function Then(t: Tok, rest: Lexed): Lexed {
    match rest case Bad => Bad case Good(ts) => Good([t] + ts)
  }

  /** Drop a line comment: everything up to the next newline. */
  predicate NotNewline(c: char) { c != '\n' }

  function Lex(mode: Mode, s: string): Lexed
    decreases |s|
  {
    match mode
    case Between =>
      if |s| == 0 then Good([Eof])
      else if IsSpace(s[0]) then Lex(Between, s[1..])
      else if s[0] == '/' && Peek(s, 1) == '/' then
        var n := Span(s, NotNewline);
        if n == 0 then Bad else Lex(Between, s[n..])
      else if s[0] == '/' && Peek(s, 1) == '*' then Lex(Comment(1), s[2..])
      else if s[0] == '\'' then Lex(Quote, s[1..])
      else if s[0] == '"' then Lex(InStr(""), s[1..])
      else
        (match Code(s)
         case NoToken => Bad
         case Token(t, n) => if 0 < n <= |s| then Then(t, Lex(Between, s[n..])) else Bad)
    case Comment(d) =>
      if |s| == 0 then Bad
      else if s[0] == '/' && Peek(s, 1) == '*' then Lex(Comment(d + 1), s[2..])
      else if s[0] == '*' && Peek(s, 1) == '/' then Lex(if d <= 1 then Between else Comment(d - 1), s[2..])
      else Lex(mode, s[1..])
    case InStr(text) =>
      if |s| == 0 then Bad
      else if s[0] == '"' then Then(StrTok(text), Lex(Between, s[1..]))
      else if s[0] == '\\' then
        (match Unescape(s[1..])
         case NoEscape => Bad
         case Escape(c, n) => Lex(InStr(text + [c]), s[1 + n..]))
      else Lex(InStr(text + [s[0]]), s[1..])
    case Quote =>
      if |s| == 0 || s[0] == '\0' then Bad
      else if s[0] == '\\' then
        (match Unescape(s[1..])
         case NoEscape => Bad
         case Escape(c, n) => Lex(Close(c), s[1 + n..]))
      else Lex(Close(s[0]), s[1..])
    case Close(c) =>
      if |s| > 0 && s[0] == '\'' then Then(ChrTok(c), Lex(Between, s[1..])) else Bad
  }

  /** The token kinds of a source, or Bad if it does not lex. */
  function Tokens(src: string): Lexed {
    Lex(Between, src)
  }
}
