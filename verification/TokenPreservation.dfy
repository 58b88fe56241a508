/** Formatting never changes the tokens of a source that lexes, provided no character
    literal is written as three quotes in a row. */
module TokenPreservation {
  import opened LexSpec
  import opened LexLines
  import opened FmtSpec
  import opened FmtLines

  /** The scanner state that shadows a lexer mode. */
  function Shadow(m: Mode): St {
    match m
    case Between => Normal
    case Comment(d) => Block(d)
    case InStr(_) => Str
    case Quote => Chr
    case Close(_) => Chr
  }

  /** Reading on in mode `m`, no character literal on the line holds a bare quote. */
  predicate NoBareQuote(m: Mode, s: string)
    decreases |s|
  {
    |s| == 0 ||
    match m
    case Between =>
      if IsSpace(s[0]) then NoBareQuote(Between, s[1..])
      else if s[0] == '/' && Peek(s, 1) == '/' then true
      else if s[0] == '/' && Peek(s, 1) == '*' then NoBareQuote(Comment(1), s[2..])
      else if s[0] == '\'' then NoBareQuote(Quote, s[1..])
      else if s[0] == '"' then NoBareQuote(InStr(""), s[1..])
      else Code(s).Token? && 0 < Code(s).len <= |s| ==> NoBareQuote(Between, s[Code(s).len..])
    case Comment(d) =>
      if s[0] == '/' && Peek(s, 1) == '*' then NoBareQuote(Comment(d + 1), s[2..])
      else if s[0] == '*' && Peek(s, 1) == '/' then NoBareQuote(if d <= 1 then Between else Comment(d - 1), s[2..])
      else NoBareQuote(Comment(d), s[1..])
    case InStr(text) =>
      if s[0] == '"' then NoBareQuote(Between, s[1..])
      else if s[0] != '\\' then NoBareQuote(InStr(text + [s[0]]), s[1..])
      else
        var u := Unescape(s[1..]);
        u.Escape? ==> NoBareQuote(InStr(text + [u.c]), s[1 + u.len..])
    case Quote =>
      if s[0] == '\'' then false
      else if s[0] != '\\' then NoBareQuote(Close(s[0]), s[1..])
      else
        var u := Unescape(s[1..]);
        u.Escape? ==> NoBareQuote(Close(u.c), s[1 + u.len..])
    case Close(_) => s[0] == '\'' ==> NoBareQuote(Between, s[1..])
  }

  predicate Sane(m: Mode, s: string) {
    NoBareQuote(m, s) && (m.Comment? ==> m.depth > 0)
  }

  // ---------------------------------------------------------------- code tokens

  /** What a token adds to the bracket depth. */
  function Level(t: Tok): int {
    if t == Op("{") || t == Op("(") || t == Op("[") then 1
    else if t == Op("}") || t == Op(")") || t == Op("]") then -1
    else 0
  }

  /** Opening brackets less closing ones. */
  function Balance(toks: seq<Tok>): int {
    if |toks| == 0 then 0 else Level(toks[0]) + Balance(toks[1..])
  }

  /** A byte the scanner passes over without changing state or depth. */
  predicate Plain(c: char) {
    c != '"' && c != '\'' && c != '/' && !Opens(c) && !Closes(c)
  }

  lemma {:induction false} SpanIsPlain(s: string, p: char -> bool)
    requires forall c | p(c) :: Plain(c)
    ensures forall i | 0 <= i < Span(s, p) :: Plain(s[i])
  {
    if |s| > 0 && p(s[0]) {
      SpanIsPlain(s[1..], p);
      forall i | 0 <= i < Span(s, p) ensures Plain(s[i]) {
        if i > 0 { assert s[i] == s[1..][i - 1]; }
      }
    }
  }

  lemma WidthIsPlain(s: string)
    ensures WidthLen(s) <= |s| && forall i | 0 <= i < WidthLen(s) :: Plain(s[i])
  {
  }

  lemma RadixIsPlain(s: string)
    requires |s| >= 2 && s[0] == '0' && IsRadixMark(s[1]) && RadixNumber(s).Token?
    ensures RadixNumber(s).len <= |s| && forall i | 0 <= i < RadixNumber(s).len :: Plain(s[i])
  {
    SpanIsPlain(s[2..], IsHexOrBar);
    SpanIsPlain(s[2..], IsOctOrBar);
    SpanIsPlain(s[2..], IsBinOrBar);
    var n := RadixLen(s[2..], Radix(s[1]));
    WidthIsPlain(s[2 + n..]);
    forall i | 0 <= i < RadixNumber(s).len ensures Plain(s[i]) {
      if 2 <= i < 2 + n { assert s[i] == s[2..][i - 2]; }
      else if i >= 2 + n { assert s[i] == s[2 + n..][i - 2 - n]; }
    }
  }

  lemma MantissaIsPlain(s: string)
    ensures forall i | 0 <= i < MantissaLen(s) :: Plain(s[i])
  {
    SpanIsPlain(s, IsDigitOrBar);
    var rest := s[WholeLen(s)..];
    if FractionLen(rest) > 0 { SpanIsPlain(rest[1..], IsDigitOrBar); }
    forall i | 0 <= i < MantissaLen(s) ensures Plain(s[i]) {
      if i >= WholeLen(s) {
        assert s[i] == rest[i - WholeLen(s)];
        if i > WholeLen(s) { assert s[i] == rest[1..][i - WholeLen(s) - 1]; }
      }
    }
  }

  lemma ExponentIsPlain(s: string)
    ensures forall i | 0 <= i < ExponentLen(s) :: Plain(s[i])
  {
    if ExponentLen(s) > 0 {
      var sign := if Peek(s, 1) == '+' || Peek(s, 1) == '-' then 1 else 0;
      SpanIsPlain(s[1 + sign..], IsDigit);
      forall i | 0 <= i < ExponentLen(s) ensures Plain(s[i]) {
        if i > sign { assert s[i] == s[1 + sign..][i - 1 - sign]; }
      }
    }
  }

  lemma DecimalIsPlain(s: string)
    requires DecimalNumber(s).Token?
    ensures DecimalNumber(s).len <= |s| && forall i | 0 <= i < DecimalNumber(s).len :: Plain(s[i])
  {
    MantissaIsPlain(s);
    ExponentIsPlain(s[MantissaLen(s)..]);
    WidthIsPlain(s[DecimalLen(s)..]);
    forall i | 0 <= i < DecimalNumber(s).len ensures Plain(s[i]) {
      if MantissaLen(s) <= i < DecimalLen(s) { assert s[i] == s[MantissaLen(s)..][i - MantissaLen(s)]; }
      else if i >= DecimalLen(s) { assert s[i] == s[DecimalLen(s)..][i - DecimalLen(s)]; }
    }
  }

  /** Only a lone slash can be a special byte in a code token, and only in front. */
  lemma CodeIsPlain(s: string)
    requires |s| > 0 && Code(s).Token?
    ensures Code(s).len <= |s| && forall i | 0 < i < Code(s).len :: Plain(s[i])
  {
    if IsIdentStart(s[0]) {
      SpanIsPlain(s, IsIdentCont);
    } else if IsDigit(s[0]) {
      if s[0] == '0' && |s| >= 2 && IsRadixMark(s[1]) { RadixIsPlain(s); } else { DecimalIsPlain(s); }
    } else {
      OperatorIsPlain(s);
    }
  }

  lemma OperatorIsPlain(s: string)
    requires |s| > 0 && Operator(s).Token?
    ensures Operator(s).len <= |s| && forall i | 0 < i < Operator(s).len :: Plain(s[i])
  {
  }

  /** The scanner passes over plain bytes in its normal state. */
  lemma {:induction false} ScanPlain(depth: int, s: string, n: nat)
    requires n <= |s| && forall i | 0 <= i < n :: Plain(s[i])
    ensures ScanLine(Normal, depth, s) == ScanLine(Normal, depth, s[n..])
    decreases n
  {
    if n == 0 {
      assert s[0..] == s;
    } else {
      assert forall i | 0 <= i < n - 1 :: s[1..][i] == s[i + 1];
      ScanPlain(depth, s[1..], n - 1);
      assert s[1..][n - 1..] == s[n..];
    }
  }

  /** The only tokens that count are the brackets, each of one byte. */
  lemma BracketToken(s: string)
    requires |s| > 0 && Code(s).Token?
    ensures Level(Code(s).tok) == if Opens(s[0]) then 1 else if Closes(s[0]) then -1 else 0
  {
    if Operator(s) == Token(Op([s[0]]), 1) {
      assert [s[0]] == "{" <==> s[0] == '{';
      assert [s[0]] == "(" <==> s[0] == '(';
      assert [s[0]] == "[" <==> s[0] == '[';
      assert [s[0]] == "}" <==> s[0] == '}';
      assert [s[0]] == ")" <==> s[0] == ')';
      assert [s[0]] == "]" <==> s[0] == ']';
    }
  }

  lemma ScanToken(depth: int, s: string)
    requires |s| > 0 && Code(s).Token? && 0 < Code(s).len && s[0] != '"' && s[0] != '\''
    requires s[0] == '/' ==> Peek(s, 1) != '/' && Peek(s, 1) != '*'
    ensures Code(s).len <= |s|
    ensures ScanLine(Normal, depth, s) == ScanLine(Normal, depth + Level(Code(s).tok), s[Code(s).len..])
  {
    CodeIsPlain(s);
    BracketToken(s);
    var n := Code(s).len;
    assert forall i | 0 <= i < n - 1 :: s[1..][i] == s[i + 1];
    ScanPlain(depth + Level(Code(s).tok), s[1..], n - 1);
    assert s[1..][n - 1..] == s[n..];
  }

  // ------------------------------------------------------- the scanner shadows the lexer

  lemma EscapeShape(s: string)
    requires Unescape(s).Escape?
    ensures |s| >= 1 && (Unescape(s).len == 1 || (Unescape(s).len == 3 && |s| >= 3 && Plain(s[1]) && Plain(s[2])))
    ensures Unescape(s).len == 3 ==> s[1] != '\\' && s[2] != '\\'
  {
  }

  /** The scanner's carry agrees with where the lexer stands, and with the brackets among
      the tokens it has read from depth `from` on. */
  predicate Agree(from: int, c: Carry, r: LineOut) {
    && r.Out? && c.st == Shadow(r.mode) && !c.spliced && (r.mode.Comment? ==> r.mode.depth > 0)
    && c.depth == from + Balance(r.toks)
  }

  lemma AgreeAdd(from: int, c: Carry, t: Tok, r: LineOut)
    requires Agree(from + Level(t), c, r)
    ensures Agree(from, c, Add(t, r))
  {
    assert ([t] + r.toks)[1..] == r.toks;
  }

  /** Over a whole line, the scanner ends in the state that shadows the lexer's mode, as many
      levels deeper as the line has more opening than closing bracket tokens. */
  lemma {:induction false} ScanShadows(m: Mode, depth: int, s: string)
    requires Line(m, s).Out? && Sane(m, s)
    ensures Agree(depth, ScanLine(Shadow(m), depth, s), Line(m, s))
    decreases |s|, 1
  {
    if |s| > 0 {
      match m
      case Between => ShadowsBetween(depth, s);
      case Comment(d) => ShadowsComment(d, depth, s);
      case InStr(text) => ShadowsStr(text, depth, s);
      case Quote => ShadowsQuote(depth, s);
      case Close(c) =>
        ScanShadows(Between, depth, s[1..]);
        AgreeAdd(depth, ScanLine(Normal, depth, s[1..]), ChrTok(c), Line(Between, s[1..]));
    }
  }

  lemma {:induction false} ShadowsBetween(depth: int, s: string)
    requires |s| > 0 && Line(Between, s).Out? && Sane(Between, s)
    ensures Agree(depth, ScanLine(Normal, depth, s), Line(Between, s))
    decreases |s|, 0
  {
    StepBetween(s);
    if IsSpace(s[0]) {
      ScanShadows(Between, depth, s[1..]);
    } else if s[0] == '/' && Peek(s, 1) == '/' {
    } else if s[0] == '/' && Peek(s, 1) == '*' {
      ScanShadows(Comment(1), depth, s[2..]);
    } else if s[0] == '\'' {
      ScanShadows(Quote, depth, s[1..]);
    } else if s[0] == '"' {
      ScanShadows(InStr(""), depth, s[1..]);
    } else {
      var t, n := Code(s).tok, Code(s).len;
      ScanToken(depth, s);
      ScanShadows(Between, depth + Level(t), s[n..]);
      AgreeAdd(depth, ScanLine(Normal, depth, s), t, Line(Between, s[n..]));
    }
  }

  lemma {:induction false} ShadowsComment(d: nat, depth: int, s: string)
    requires |s| > 0 && Line(Comment(d), s).Out? && Sane(Comment(d), s)
    ensures Agree(depth, ScanLine(Block(d), depth, s), Line(Comment(d), s))
    decreases |s|, 0
  {
    StepComment(d, s);
    if s[0] == '/' && Peek(s, 1) == '*' {
      ScanShadows(Comment(d + 1), depth, s[2..]);
    } else if s[0] == '*' && Peek(s, 1) == '/' {
      ScanShadows(if d <= 1 then Between else Comment(d - 1), depth, s[2..]);
    } else {
      ScanShadows(Comment(d), depth, s[1..]);
    }
  }

  lemma {:induction false} ShadowsStr(text: string, depth: int, s: string)
    requires |s| > 0 && Line(InStr(text), s).Out? && Sane(InStr(text), s)
    ensures Agree(depth, ScanLine(Str, depth, s), Line(InStr(text), s))
    decreases |s|, 0
  {
    StepStr(text, s);
    if s[0] == '\\' {
      var n := 1 + Unescape(s[1..]).len;
      OverEscape(Str, depth, s);
      ScanShadows(InStr(text + [Unescape(s[1..]).c]), depth, s[n..]);
    } else if s[0] == '"' {
      ScanShadows(Between, depth, s[1..]);
      AgreeAdd(depth, ScanLine(Str, depth, s), StrTok(text), Line(Between, s[1..]));
    } else {
      ScanShadows(InStr(text + [s[0]]), depth, s[1..]);
    }
  }

  lemma {:induction false} ShadowsQuote(depth: int, s: string)
    requires |s| > 0 && Line(Quote, s).Out? && Sane(Quote, s)
    ensures Agree(depth, ScanLine(Chr, depth, s), Line(Quote, s))
    decreases |s|, 0
  {
    StepQuote(s);
    if s[0] == '\\' {
      var n := 1 + Unescape(s[1..]).len;
      OverEscape(Chr, depth, s);
      ScanShadows(Close(Unescape(s[1..]).c), depth, s[n..]);
    } else {
      QuoteStep(s, s[0]);
      ScanShadows(Close(s[0]), depth, s[1..]);
    }
  }

  /** The scanner steps over an escape, hex digits included. */
  lemma OverEscape(st: St, depth: int, s: string)
    requires st == Str || st == Chr
    requires |s| > 0 && s[0] == '\\' && Unescape(s[1..]).Escape?
    ensures var n := 1 + Unescape(s[1..]).len;
            n <= |s| && ScanLine(st, depth, s) == ScanLine(st, depth, s[n..])
  {
    EscapeShape(s[1..]);
    if Unescape(s[1..]).len == 3 {
      assert s[1..][1] == s[2] && s[1..][2] == s[3];
      InLiteral(st, depth, s);
    }
  }

  /** Inside a literal the scanner steps over the two digits of a hex escape. */
  lemma InLiteral(st: St, depth: int, s: string)
    requires st == Str || st == Chr
    requires |s| >= 4 && s[0] == '\\' && Plain(s[2]) && Plain(s[3]) && s[2] != '\\' && s[3] != '\\'
    ensures ScanLine(st, depth, s) == ScanLine(st, depth, s[4..])
  {
    var s2, s3 := s[2..], s[3..];
    assert ScanLine(st, depth, s) == ScanLine(st, depth, s2);
    assert s2[0] == s[2] && s2[1..] == s3;
    assert ScanLine(st, depth, s2) == ScanLine(st, depth, s3);
    assert s3[0] == s[3] && s3[1..] == s[4..];
  }

  lemma QuoteStep(s: string, c: char)
    requires |s| > 0 && s[0] == c && c != '\\' && c != '\0'
    ensures Line(Quote, s) == Line(Close(c), s[1..])
  {
    StepQuote(s);
  }

  lemma CloseStep(c: char, s: string)
    requires Line(Close(c), s).Out?
    ensures |s| > 0 && s[0] == '\''
  {
  }

  // -------------------------------------------------- trimming does not change a line

  predicate IsUnit(w: string) {
    |w| > 0 && BlankLen(w) == |w|
  }

  lemma UnitIsGap(w: string)
    requires IsUnit(w)
    ensures Gap(w) && |w| <= 3
    ensures forall c | c in w :: c != '"' && c != '\'' && c != '/' && c != '*' && c != '\\'
  {
    assert |w| == 1 ==> w == [w[0]];
    assert |w| == 2 ==> w == [w[0], w[1]];
    assert |w| == 3 ==> w == [w[0], w[1], w[2]];
  }

  lemma UnitAlone(m: Mode, w: string)
    requires IsUnit(w) && OneLine(w) && Line(m, w).Out? && Line(m, w).mode == Between
    ensures m == Between && Line(Between, w) == Out([], Between)
  {
    UnitIsGap(w);
    assert w[0] in w;
    match m
    case Between => UnitBetween(w);
    case Comment(d) => StaysInComment(d, w);
    case InStr(text) => StaysInStr(text, w);
    case Quote => UnitQuoted(w);
    case Close(_) =>
  }

  lemma UnitBetween(w: string)
    requires IsUnit(w) && OneLine(w) && Line(Between, w).Out?
    ensures Line(Between, w) == Out([], Between)
  {
    assert w[0] in w;
    FirstIsSpace(w);
    StepBetween(w);
    assert w[1..] == "" && Line(Between, "") == Out([], Between);
  }

  lemma UnitQuoted(w: string)
    requires IsUnit(w)
    ensures Line(Quote, w) == Stuck
  {
    UnitIsGap(w);
    assert w[0] in w && w[0] != '\\';
    var t := w[1..];
    assert |t| > 0 ==> t[0] == w[1] && w[1] in w;
    assert Line(Close(w[0]), t) == Stuck;
  }

  lemma NoCode(s: string)
    requires BlankLen(s) > 0 && !IsSpace(s[0])
    ensures Code(s) == NoToken
  {
    assert !IsIdentStart(s[0]) && !IsDigit(s[0]);
    assert Operator(s) == NoToken;
  }

  lemma CodeStep(s: string)
    requires |s| > 0 && !IsSpace(s[0]) && Plain(s[0]) && Line(Between, s).Out?
    ensures Code(s).Token?
  {
  }

  /** Only the lexer's own white space can stand in front of code. */
  lemma FirstIsSpace(s: string)
    requires Line(Between, s).Out? && BlankLen(s) > 0 && s[0] != '\n'
    ensures IsSpace(s[0]) && BlankLen(s) == 1
  {
    if !IsSpace(s[0]) {
      NoCode(s);
      CodeStep(s);
    }
  }

  lemma {:induction false} StaysInComment(d: nat, w: string)
    requires forall c | c in w :: c != '/' && c != '*'
    ensures Line(Comment(d), w) == Out([], Comment(d))
    decreases |w|
  {
    if |w| > 0 {
      assert w[0] in w && forall c | c in w[1..] :: c in w;
      StaysInComment(d, w[1..]);
    }
  }

  lemma {:induction false} StaysInStr(text: string, w: string)
    requires forall c | c in w :: c != '"' && c != '\\'
    ensures Line(InStr(text), w).Out? && Line(InStr(text), w).mode.InStr?
    decreases |w|
  {
    if |w| > 0 {
      assert w[0] in w && forall c | c in w[1..] :: c in w;
      StaysInStr(text + [w[0]], w[1..]);
    }
  }

  lemma TailOneLine(s: string, n: nat)
    requires OneLine(s) && n <= |s|
    ensures OneLine(s[n..])
  {
    forall c | c in s[n..] ensures c in s {}
  }

  predicate EndsClean(m: Mode, s: string) {
    OneLine(s) && Line(m, s).Out? && Line(m, s).mode == Between
  }

  lemma Unfold(x: string, w: string)
    requires |x| > 0 && IsUnit(w) && OneLine(x + w)
    ensures (x + w)[0] == x[0] && (x + w)[1..] == x[1..] + w && OneLine(x[1..] + w)
    ensures Peek(x + w, 1) == '/' <==> Peek(x, 1) == '/'
    ensures Peek(x + w, 1) == '*' <==> Peek(x, 1) == '*'
    ensures |x| >= 2 ==> (x + w)[2..] == x[2..] + w && OneLine(x[2..] + w)
  {
    UnitIsGap(w);
    assert w[0] in w;
    Drop(x, w, 1);
    TailOneLine(x + w, 1);
    if |x| >= 2 {
      Drop(x, w, 2);
      TailOneLine(x + w, 2);
    }
  }

  lemma UnfoldEscape(x: string, w: string)
    requires |x| > 0 && IsUnit(w) && OneLine(x + w) && Unescape((x + w)[1..]).Escape?
    ensures Unescape((x + w)[1..]) == Unescape(x[1..])
    ensures var n := 1 + Unescape(x[1..]).len;
            n <= |x| && (x + w)[n..] == x[n..] + w && OneLine(x[n..] + w)
  {
    UnitIsGap(w);
    Drop(x, w, 1);
    UnescapeLocal(x[1..], w);
    var n := 1 + Unescape(x[1..]).len;
    Drop(x, w, n);
    TailOneLine(x + w, n);
  }

  /** White space at the end of a line that ends between tokens is not part of any. */
  lemma {:induction false} TrailingUnit(m: Mode, x: string, w: string)
    requires IsUnit(w) && EndsClean(m, x + w)
    ensures Line(m, x) == Line(m, x + w)
    decreases |x|, 1
  {
    if |x| == 0 {
      assert x + w == w;
      UnitAlone(m, w);
    } else {
      match m
      case Between => TrailingBetween(x, w);
      case Comment(d) => TrailingComment(d, x, w);
      case InStr(text) => TrailingStr(text, x, w);
      case Quote => TrailingQuote(x, w);
      case Close(c) =>
        Unfold(x, w);
        TrailingUnit(Between, x[1..], w);
    }
  }

  lemma {:induction false} TrailingComment(d: nat, x: string, w: string)
    requires |x| > 0 && IsUnit(w) && EndsClean(Comment(d), x + w)
    ensures Line(Comment(d), x) == Line(Comment(d), x + w)
    decreases |x|, 0
  {
    StepComment(d, x);
    StepComment(d, x + w);
    Unfold(x, w);
    if x[0] == '/' && Peek(x, 1) == '*' {
      TrailingUnit(Comment(d + 1), x[2..], w);
    } else if x[0] == '*' && Peek(x, 1) == '/' {
      TrailingUnit(if d <= 1 then Between else Comment(d - 1), x[2..], w);
    } else {
      TrailingUnit(Comment(d), x[1..], w);
    }
  }

  lemma {:induction false} TrailingStr(text: string, x: string, w: string)
    requires |x| > 0 && IsUnit(w) && EndsClean(InStr(text), x + w)
    ensures Line(InStr(text), x) == Line(InStr(text), x + w)
    decreases |x|, 0
  {
    StepStr(text, x);
    StepStr(text, x + w);
    Unfold(x, w);
    if x[0] == '"' {
      TrailingUnit(Between, x[1..], w);
    } else if x[0] == '\\' {
      UnfoldEscape(x, w);
      TrailingUnit(InStr(text + [Unescape(x[1..]).c]), x[1 + Unescape(x[1..]).len..], w);
    } else {
      TrailingUnit(InStr(text + [x[0]]), x[1..], w);
    }
  }

  lemma {:induction false} TrailingQuote(x: string, w: string)
    requires |x| > 0 && IsUnit(w) && EndsClean(Quote, x + w)
    ensures Line(Quote, x) == Line(Quote, x + w)
    decreases |x|, 0
  {
    StepQuote(x);
    StepQuote(x + w);
    Unfold(x, w);
    if x[0] == '\\' {
      UnfoldEscape(x, w);
      TrailingUnit(Close(Unescape(x[1..]).c), x[1 + Unescape(x[1..]).len..], w);
    } else {
      TrailingUnit(Close(x[0]), x[1..], w);
    }
  }

  lemma {:induction false} TrailingBetween(x: string, w: string)
    requires |x| > 0 && IsUnit(w) && EndsClean(Between, x + w)
    ensures Line(Between, x) == Line(Between, x + w)
    decreases |x|, 0
  {
    StepBetween(x);
    StepBetween(x + w);
    Unfold(x, w);
    if IsSpace(x[0]) {
      TrailingUnit(Between, x[1..], w);
    } else if x[0] == '/' && Peek(x, 1) == '/' {
    } else if x[0] == '/' && Peek(x, 1) == '*' {
      TrailingUnit(Comment(1), x[2..], w);
    } else if x[0] == '\'' {
      TrailingUnit(Quote, x[1..], w);
    } else if x[0] == '"' {
      TrailingUnit(InStr(""), x[1..], w);
    } else {
      UnitIsGap(w);
      CodeLocal(x, w);
      var n := Code(x).len;
      Drop(x, w, n);
      TailOneLine(x + w, n);
      TrailingUnit(Between, x[n..], w);
    }
  }

  lemma {:induction false} TrimEndSame(s: string)
    requires OneLine(s) && Line(Between, s).Out? && Line(Between, s).mode == Between
    ensures Line(Between, TrimEnd(s)) == Line(Between, s)
    decreases |s|
  {
    var n := BlankLenAtEnd(s);
    if n > 0 {
      var x, w := s[..|s| - n], s[|s| - n..];
      assert s == x + w;
      TrailingUnit(Between, x, w);
      assert forall c | c in x :: c in s;
      TrimEndSame(x);
    }
  }

  /** White space in front of a line of code means nothing. */
  lemma {:induction false} TrimStartSame(s: string)
    requires OneLine(s) && Line(Between, s).Out?
    ensures Line(Between, TrimStart(s)) == Line(Between, s)
    decreases |s|
  {
    var n := BlankLen(s);
    if n > 0 {
      assert s[0] in s;
      FirstIsSpace(s);
      TailOneLine(s, 1);
      TrimStartSame(s[1..]);
    }
  }

  lemma {:induction false} IndentSame(levels: nat, s: string)
    ensures Line(Between, Indent(levels) + s) == Line(Between, s)
    decreases levels
  {
    if levels == 0 {
      assert Indent(0) + s == s;
    } else {
      var deeper := Indent(levels - 1) + s;
      assert Indent(levels) + s == "    " + deeper;
      IndentSame(levels - 1, s);
      SpacesSkipped(deeper);
    }
  }

  lemma SpacesSkipped(s: string)
    ensures Line(Between, "    " + s) == Line(Between, s)
  {
    var a, b, c, d := "    " + s, "   " + s, "  " + s, " " + s;
    assert a[1..] == b && b[1..] == c && c[1..] == d && d[1..] == s;
    assert Line(Between, a) == Line(Between, b);
    assert Line(Between, b) == Line(Between, c);
    assert Line(Between, c) == Line(Between, d);
  }

  lemma ContentSame(raw: string, endsVerbatim: bool)
    requires OneLine(raw) && Line(Between, raw).Out?
    requires !endsVerbatim ==> Line(Between, raw).mode == Between
    ensures Line(Between, Content(raw, endsVerbatim)) == Line(Between, raw)
  {
    TrimStartSame(raw);
    TrimStartIs(raw);
    TailOneLine(raw, |raw| - |TrimStart(raw)|);
    if !endsVerbatim { TrimEndSame(TrimStart(raw)); }
  }

  lemma LaidIsIndented(content: string, depth: int) returns (levels: nat)
    ensures Laid(content, depth) == Indent(levels) + content
  {
    var wanted := depth - LeadClosers(content);
    levels := if content != "" && wanted > 0 then wanted else 0;
    assert Indent(0) + content == content;
  }

  /** A re-laid line gives the tokens of the original and ends in the same mode. */
  lemma LaidSame(raw: string, endsVerbatim: bool, depth: int)
    requires OneLine(raw) && Line(Between, raw).Out?
    requires !endsVerbatim ==> Line(Between, raw).mode == Between
    ensures Line(Between, Laid(Content(raw, endsVerbatim), depth)) == Line(Between, raw)
  {
    ContentSame(raw, endsVerbatim);
    var levels := LaidIsIndented(Content(raw, endsVerbatim), depth);
    IndentSame(levels, Content(raw, endsVerbatim));
  }

  // ------------------------------------------------------------------- whole files

  /** Likewise for a file given as its lines. */
  predicate NoBareQuotes(m: Mode, lines: seq<string>)
    decreases |lines|
  {
    |lines| == 0 ||
    (NoBareQuote(m, lines[0]) &&
     (Line(m, lines[0]).Out? ==> NoBareQuotes(AfterNewline(Line(m, lines[0]).mode), lines[1..])))
  }

  predicate FileSane(m: Mode, lines: seq<string>) {
    NoBareQuotes(m, lines) && forall l | l in lines :: OneLine(l)
  }

  /** A source that lexes is never spliced. */
  lemma {:induction false} LexedIsUnspliced(m: Mode, depth: int, lines: seq<string>)
    requires FileSane(m, lines) && Lines(m, lines).Good? && !m.Quote? && (m.Comment? ==> m.depth > 0)
    ensures Unspliced(Shadow(m), depth, lines)
    decreases |lines|
  {
    assert lines[0] in lines && forall l | l in lines[1..] :: l in lines;
    ScanShadows(m, depth, lines[0]);
    var c := ScanLine(Shadow(m), depth, lines[0]);
    var next := AfterNewline(Line(m, lines[0]).mode);
    NoCloseAtEnd(m, lines[0]);
    if |lines| > 1 {
      assert Shadow(next) == c.st;
      LexedIsUnspliced(next, c.depth, lines[1..]);
    } else {
      assert lines[1..] == [];
    }
  }

  lemma BeforeBlank(out: seq<string>)
    requires |out| > 0
    ensures Lines(Between, [""] + out) == Lines(Between, out)
  {
    assert Line(Between, "") == Out([], Between);
    assert ([""] + out)[1..] == out;
    if Lines(Between, out).Good? { assert [] + Lines(Between, out).toks == Lines(Between, out).toks; }
  }

  /** The lines the formatter puts out, followed by the empty last line. */
  function Emitted(st: St, depth: int, lines: seq<string>, pending: bool, seen: bool): seq<string> {
    Collapse(BuildFrom(st, depth, lines), pending, seen) + [""]
  }

  ghost predicate Follows(m: Mode, lines: seq<string>) {
    FileSane(m, lines) && Lines(m, lines).Good? && !m.Quote? && (m.Comment? ==> m.depth > 0)
  }

  /** Going from a line to the next keeps lexer and scanner together. */
  lemma NextFollows(m: Mode, depth: int, lines: seq<string>)
    requires Follows(m, lines)
    ensures Line(m, lines[0]).Out?
    ensures var next := AfterNewline(Line(m, lines[0]).mode);
            && Shadow(next) == ScanLine(Shadow(m), depth, lines[0]).st
            && (|lines| > 1 ==> Follows(next, lines[1..]))
  {
    assert lines[0] in lines && forall l | l in lines[1..] :: l in lines;
    ScanShadows(m, depth, lines[0]);
    NoCloseAtEnd(m, lines[0]);
  }

  lemma BuildStep(st: St, depth: int, lines: seq<string>)
    requires |lines| > 0
    ensures var c := ScanLine(st, depth, lines[0]);
            BuildFrom(st, depth, lines)[0] == BuiltHead(st, depth, lines) &&
            BuildFrom(st, depth, lines)[1..] == BuildFrom(c.st, c.depth, lines[1..])
  {
  }

  lemma {:induction false} EmittedSame(m: Mode, depth: int, lines: seq<string>, pending: bool, seen: bool)
    requires Follows(m, lines) && (pending ==> m == Between)
    ensures Lines(m, Emitted(Shadow(m), depth, lines, pending, seen)) == Lines(m, lines)
    decreases |lines|, 1
  {
    NextFollows(m, depth, lines);
    HeadSame(m, depth, lines);
    BuildStep(Shadow(m), depth, lines);
    if IsBlank(BuiltHead(Shadow(m), depth, lines)) {
      EmittedBlank(m, depth, lines, pending, seen);
    } else {
      EmittedText(m, depth, lines, pending, seen);
    }
  }

  lemma {:induction false} EmittedBlank(m: Mode, depth: int, lines: seq<string>, pending: bool, seen: bool)
    requires Follows(m, lines) && m == Between
    requires IsBlank(BuiltHead(Shadow(m), depth, lines)) && Line(m, lines[0]) == Line(Between, "")
    ensures Lines(m, Emitted(Shadow(m), depth, lines, pending, seen)) == Lines(m, lines)
    decreases |lines|, 0
  {
    NextFollows(m, depth, lines);
    BuildStep(Shadow(m), depth, lines);
    var c := ScanLine(Shadow(m), depth, lines[0]);
    assert Line(m, lines[0]) == Out([], Between);
    if |lines| > 1 {
      EmittedSame(Between, c.depth, lines[1..], pending || seen, seen);
      NothingBefore(Lines(Between, lines[1..]));
    } else {
      assert lines[1..] == [] && BuildFrom(c.st, c.depth, []) == [];
      var bs := BuildFrom(Shadow(m), depth, lines);
      assert Collapse(bs, pending, seen) == Collapse(bs[1..], pending || seen, seen) == [];
      assert Emitted(Shadow(m), depth, lines, pending, seen) == [""];
    }
  }

  lemma NothingBefore(r: Lexed)
    ensures Before([], r) == r
  {
    if r.Good? { assert [] + r.toks == r.toks; }
  }

  lemma EmittedEnd(st: St, depth: int)
    ensures Emitted(st, depth, [], false, true) == [""] && Lines(Between, [""]) == Good([Eof])
  {
    assert [] + [""] == [""];
  }

  /** The last line of a file that lexes ends between tokens. */
  lemma LastLine(m: Mode, lines: seq<string>)
    requires |lines| == 1 && Lines(m, lines).Good?
    ensures var end := Line(m, lines[0]);
            end.Out? && end.mode == Between && Lines(m, lines) == Before(end.toks, Good([Eof]))
  {
  }

  lemma MoreLines(m: Mode, lines: seq<string>)
    requires |lines| > 1 && Line(m, lines[0]).Out?
    ensures var end := Line(m, lines[0]); Lines(m, lines) == Before(end.toks, Lines(AfterNewline(end.mode), lines[1..]))
  {
  }

  lemma EmittedSome(st: St, depth: int, lines: seq<string>, pending: bool, seen: bool)
    ensures |Emitted(st, depth, lines, pending, seen)| > 0
  {
  }

  lemma {:induction false} EmittedText(m: Mode, depth: int, lines: seq<string>, pending: bool, seen: bool)
    requires |lines| > 0 && Follows(m, lines) && (pending ==> m == Between)
    requires !IsBlank(BuiltHead(Shadow(m), depth, lines))
    requires Line(m, BuiltHead(Shadow(m), depth, lines).text) == Line(m, lines[0])
    ensures Lines(m, Emitted(Shadow(m), depth, lines, pending, seen)) == Lines(m, lines)
    decreases |lines|, 0
  {
    hide Line, Lines, ScanLine, Collapse, BuildFrom, BuiltHead, IsBlank, Emitted;
    NextFollows(m, depth, lines);
    var c := ScanLine(Shadow(m), depth, lines[0]);
    var end := Line(m, lines[0]);
    var next := AfterNewline(end.mode);
    var text := BuiltHead(Shadow(m), depth, lines).text;
    var rest := Emitted(c.st, c.depth, lines[1..], false, true);
    if |lines| > 1 {
      EmittedSame(next, c.depth, lines[1..], false, true);
      MoreLines(m, lines);
    } else {
      assert lines[1..] == [];
      EmittedEnd(c.st, c.depth);
      LastLine(m, lines);
    }
    EmittedSome(c.st, c.depth, lines[1..], false, true);
    EmitLine(m, text, end, rest, next);
    EmittedShape(Shadow(m), depth, lines, pending, seen);
    if pending { BeforeBlank([text] + rest); }
  }

  lemma EmittedShape(st: St, depth: int, lines: seq<string>, pending: bool, seen: bool)
    requires |lines| > 0 && !IsBlank(BuiltHead(st, depth, lines))
    ensures var c := ScanLine(st, depth, lines[0]);
            var rest := [BuiltHead(st, depth, lines).text] + Emitted(c.st, c.depth, lines[1..], false, true);
            Emitted(st, depth, lines, pending, seen) == (if pending then [""] + rest else rest)
  {
    BuildStep(st, depth, lines);
    var c := ScanLine(st, depth, lines[0]);
    var bs := BuildFrom(st, depth, lines);
    CollapseText(bs, pending, seen);
    Ended(if pending then [""] else [], [bs[0].text], Collapse(bs[1..], false, true));
    if !pending { assert [] + ([bs[0].text] + (Collapse(bs[1..], false, true) + [""])) == [bs[0].text] + (Collapse(bs[1..], false, true) + [""]); }
  }

  lemma CollapseText(bs: seq<Built>, pending: bool, seen: bool)
    requires |bs| > 0 && !IsBlank(bs[0])
    ensures Collapse(bs, pending, seen) == (if pending then [""] else []) + [bs[0].text] + Collapse(bs[1..], false, true)
  {
  }

  lemma Ended(a: seq<string>, b: seq<string>, c: seq<string>)
    ensures a + b + c + [""] == a + (b + (c + [""]))
    ensures [] + b == b
  {
  }

  lemma EmitLine(m: Mode, text: string, end: LineOut, rest: seq<string>, next: Mode)
    requires |rest| > 0 && end.Out? && Line(m, text) == end && next == AfterNewline(end.mode)
    ensures Lines(m, [text] + rest) == Before(end.toks, Lines(next, rest))
  {
    assert ([text] + rest)[1..] == rest;
  }

  /** The built line lexes like the original one. */
  lemma HeadSame(m: Mode, depth: int, lines: seq<string>)
    requires FileSane(m, lines) && Lines(m, lines).Good? && !m.Quote? && (m.Comment? ==> m.depth > 0)
    ensures Line(m, BuiltHead(Shadow(m), depth, lines).text) == Line(m, lines[0])
    ensures BuiltHead(Shadow(m), depth, lines).verbatim == (m != Between)
  {
    var raw := lines[0];
    assert raw in lines;
    if m == Between {
      ScanShadows(m, depth, raw);
      var ends := |lines| > 1 && ScanLine(Normal, depth, raw).st != Normal;
      LaidSame(raw, ends, depth);
    }
  }

  /** No character literal of the source is written as three quotes. */
  predicate QuotesEscaped(src: string) {
    NoBareQuotes(Between, Split(src))
  }

  lemma SourceFollows(src: string)
    requires Tokens(src).Good? && QuotesEscaped(src)
    ensures Follows(Between, Split(src))
  {
    SplitLines(src);
    LexIsLines(Between, Split(src));
  }

  /** Formatting preserves the tokens. */
  lemma FormatPreservesTokens(src: string)
    requires Tokens(src).Good? && QuotesEscaped(src)
    ensures Tokens(Format(src)) == Tokens(src)
  {
    var lines := Split(src);
    SplitLines(src);
    LexIsLines(Between, lines);
    SourceFollows(src);
    LexedIsUnspliced(Between, 0, lines);
    FormatIsOutLines(lines);
    EmittedSame(Between, 0, lines, false, false);
    var out := OutLines(lines);
    assert Emitted(Normal, 0, lines, false, false) == out + [""];
    OutOneLine(Normal, 0, lines, false, false);
    LexIsLines(Between, out + [""]);
    if |out| > 0 {
      JoinEmptyLast(out);
      if Join(out) == "" { EmptyOut(out); }
    } else {
      assert out + [""] == [""];
    }
  }

  lemma EmptyOut(out: seq<string>)
    requires |out| > 0 && Join(out) == ""
    ensures Tokens("\n") == Tokens("")
  {
    assert "\n"[1..] == "";
  }

  lemma {:induction false} OutOneLine(st: St, depth: int, lines: seq<string>, pending: bool, seen: bool)
    requires forall l | l in lines :: OneLine(l)
    ensures forall l | l in Emitted(st, depth, lines, pending, seen) :: OneLine(l)
    decreases |lines|
  {
    if |lines| > 0 {
      assert lines[0] in lines && forall l | l in lines[1..] :: l in lines;
      var c := ScanLine(st, depth, lines[0]);
      var head := BuiltHead(st, depth, lines);
      var tail := BuildFrom(c.st, c.depth, lines[1..]);
      assert BuildFrom(st, depth, lines) == [head] + tail;
      OutOneLine(c.st, c.depth, lines[1..], pending || seen, seen);
      OutOneLine(c.st, c.depth, lines[1..], false, true);
      HeadOneLine(st, depth, lines);
    }
  }

  lemma ContentOneLine(raw: string, endsVerbatim: bool)
    requires OneLine(raw)
    ensures OneLine(Content(raw, endsVerbatim))
  {
    TrimStartIs(raw);
    TailOneLine(raw, |raw| - |TrimStart(raw)|);
    TrimEndIsPrefix(TrimStart(raw));
    forall c | c in Trim(raw) ensures c in TrimStart(raw) {}
  }

  lemma HeadOneLine(st: St, depth: int, lines: seq<string>)
    requires |lines| > 0 && OneLine(lines[0])
    ensures OneLine(BuiltHead(st, depth, lines).text)
  {
    var ends := |lines| > 1 && ScanLine(st, depth, lines[0]).st != Normal;
    ContentOneLine(lines[0], ends);
    var levels := depth - LeadClosers(Content(lines[0], ends));
    IndentIsBlank(if levels > 0 then levels else 0);
  }

  /** The guard built into the checked formatter never fires on such a source. */
  lemma FormatCheckedAccepts(src: string)
    requires Tokens(src).Good? && QuotesEscaped(src)
    ensures FormatChecked(src) == Accepted(Format(src))
  {
    FormatPreservesTokens(src);
  }

  /** Whatever the checked formatter accepts has the tokens of the source; and it accepts
      every source that is formatted already. */
  lemma CheckedIsSafe(src: string, text: string)
    ensures FormatChecked(src) == Accepted(text) ==> text == Format(src) && Tokens(text) == Tokens(src)
    ensures Format(src) == src ==> FormatChecked(src) == Accepted(src)
  {
  }
}
