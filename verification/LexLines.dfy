/** Lexing one line at a time.  A code token never reaches past the end of its line,
    so the only thing carried from a line to the next is the lexer's mode. */
module LexLines {
  import opened LexSpec

  datatype LineOut = Stuck | Out(toks: seq<Tok>, mode: Mode)

  function Add(t: Tok, rest: LineOut): LineOut {
    match rest case Stuck => Stuck case Out(ts, m) => Out([t] + ts, m)
  }

  /** The tokens completed on a line, and the mode at its end (before the newline). */
  function Line(mode: Mode, s: string): LineOut
    decreases |s|, 1
  {
    if |s| == 0 then (if mode.Close? then Stuck else Out([], mode))
    else match mode
      case Between => LineBetween(s)
      case Comment(d) => LineComment(d, s)
      case InStr(text) => LineStr(text, s)
      case Quote => LineQuote(s)
      case Close(c) => if s[0] == '\'' then Add(ChrTok(c), Line(Between, s[1..])) else Stuck
  }

  function LineBetween(s: string): LineOut
    requires |s| > 0
    decreases |s|, 0
  {
    if IsSpace(s[0]) then Line(Between, s[1..])
    else if s[0] == '/' && Peek(s, 1) == '/' then Out([], Between)
    else if s[0] == '/' && Peek(s, 1) == '*' then Line(Comment(1), s[2..])
    else if s[0] == '\'' then Line(Quote, s[1..])
    else if s[0] == '"' then Line(InStr(""), s[1..])
    else
      match Code(s)
      case NoToken => Stuck
      case Token(t, n) => if 0 < n <= |s| then Add(t, Line(Between, s[n..])) else Stuck
  }

  function LineComment(d: nat, s: string): LineOut
    requires |s| > 0
    decreases |s|, 0
  {
    if s[0] == '/' && Peek(s, 1) == '*' then Line(Comment(d + 1), s[2..])
    else if s[0] == '*' && Peek(s, 1) == '/' then Line(if d <= 1 then Between else Comment(d - 1), s[2..])
    else Line(Comment(d), s[1..])
  }

  function LineStr(text: string, s: string): LineOut
    requires |s| > 0
    decreases |s|, 0
  {
    if s[0] == '"' then Add(StrTok(text), Line(Between, s[1..]))
    else if s[0] == '\\' then
      match Unescape(s[1..])
      case NoEscape => Stuck
      case Escape(c, n) => Line(InStr(text + [c]), s[1 + n..])
    else Line(InStr(text + [s[0]]), s[1..])
  }

  function LineQuote(s: string): LineOut
    requires |s| > 0
    decreases |s|, 0
  {
    if s[0] == '\0' then Stuck
    else if s[0] == '\\' then
      match Unescape(s[1..])
      case NoEscape => Stuck
      case Escape(c, n) => Line(Close(c), s[1 + n..])
    else Line(Close(s[0]), s[1..])
  }

  lemma StepBetween(s: string)
    requires |s| > 0
    ensures Line(Between, s) == LineBetween(s)
  {
  }

  lemma StepComment(d: nat, s: string)
    requires |s| > 0
    ensures Line(Comment(d), s) == LineComment(d, s)
  {
  }

  lemma StepStr(text: string, s: string)
    requires |s| > 0
    ensures Line(InStr(text), s) == LineStr(text, s)
  {
  }

  lemma StepQuote(s: string)
    requires |s| > 0
    ensures Line(Quote, s) == LineQuote(s)
  {
  }

  /** What the newline itself does: it is text inside a string and can be a character. */
  function AfterNewline(mode: Mode): Mode {
    match mode
    case InStr(text) => InStr(text + ['\n'])
    case Quote => Close('\n')
    case _ => mode
  }

  function Before(ts: seq<Tok>, rest: Lexed): Lexed {
    match rest case Bad => Bad case Good(us) => Good(ts + us)
  }

  /** Lexing a file given as its lines. */
  function Lines(mode: Mode, lines: seq<string>): Lexed
    decreases |lines|
  {
    if |lines| == 0 then Bad
    else match Line(mode, lines[0])
      case Stuck => Bad
      case Out(ts, m) =>
        if |lines| > 1 then Before(ts, Lines(AfterNewline(m), lines[1..]))
        else if m == Between then Good(ts + [Eof])
        else Bad
  }

  predicate OneLine(s: string) {
    '\n' !in s
  }

  function Join(lines: seq<string>): string {
    if |lines| == 0 then ""
    else if |lines| == 1 then lines[0]
    else lines[0] + "\n" + Join(lines[1..])
  }

  // -------------------------------------------------------------------- locality

  /** Bytes that can follow a token without becoming part of it: every byte at which
      white space, in the sense of the formatter's trimming, can start. */
  predicate IsGap(c: char) {
    c == ' ' || '\t' <= c <= '\r' ||
    c == '\U{c2}' || c == '\U{e1}' || c == '\U{e2}' || c == '\U{e3}'
  }

  predicate Gap(w: string) {
    |w| == 0 || IsGap(w[0])
  }

  lemma {:induction false} SpanLocal(a: string, w: string, p: char -> bool)
    requires |w| == 0 || !p(w[0])
    ensures Span(a + w, p) == Span(a, p)
    decreases |a|
  {
    if |a| == 0 {
      assert a + w == w;
    } else {
      assert (a + w)[1..] == a[1..] + w;
      SpanLocal(a[1..], w, p);
    }
  }

  lemma WidthLocal(a: string, w: string)
    requires Gap(w)
    ensures WidthLen(a + w) == WidthLen(a) <= |a|
    ensures FloatWidth(a + w) == FloatWidth(a)
  {
  }

  lemma Drop(a: string, w: string, n: nat)
    requires n <= |a|
    ensures (a + w)[n..] == a[n..] + w && (a + w)[..n] == a[..n]
  {
  }

  lemma RadixLocal(a: string, w: string)
    requires |a| >= 2 && Gap(w)
    ensures RadixNumber(a + w) == RadixNumber(a)
    ensures RadixNumber(a).Token? ==> 0 < RadixNumber(a).len <= |a|
  {
    var r := Radix(a[1]);
    Drop(a, w, 2);
    SpanLocal(a[2..], w, IsHexOrBar);
    SpanLocal(a[2..], w, IsBinOrBar);
    SpanLocal(a[2..], w, IsOctOrBar);
    var n := RadixLen(a[2..], r);
    assert RadixLen((a + w)[2..], r) == n;
    Drop(a, w, 2 + n);
    assert (a + w)[2..2 + n] == a[2..2 + n];
    WidthLocal(a[2 + n..], w);
  }

  lemma DecimalLocal(a: string, w: string)
    requires |a| >= 1 && IsDigit(a[0]) && Gap(w)
    ensures DecimalNumber(a + w) == DecimalNumber(a)
    ensures DecimalNumber(a).Token? ==> 0 < DecimalNumber(a).len <= |a|
  {
    DecimalLenLocal(a, w);
    var end := DecimalLen(a);
    Drop(a, w, end);
    WidthLocal(a[end..], w);
  }

  lemma DecimalLenLocal(a: string, w: string)
    requires |a| >= 1 && IsDigit(a[0]) && Gap(w)
    ensures WholeLen(a + w) == WholeLen(a) > 0
    ensures MantissaLen(a + w) == MantissaLen(a)
    ensures DecimalLen(a + w) == DecimalLen(a)
  {
    SpanLocal(a, w, IsDigitOrBar);
    Drop(a, w, WholeLen(a));
    FractionLocal(a[WholeLen(a)..], w);
    Drop(a, w, MantissaLen(a));
    ExponentLocal(a[MantissaLen(a)..], w);
  }

  lemma FractionLocal(a: string, w: string)
    requires Gap(w)
    ensures FractionLen(a + w) == FractionLen(a)
  {
    if |a| > 0 {
      Drop(a, w, 1);
      SpanLocal(a[1..], w, IsDigitOrBar);
    }
  }

  lemma ExponentLocal(a: string, w: string)
    requires Gap(w)
    ensures ExponentLen(a + w) == ExponentLen(a)
  {
    if |a| > 0 && (a[0] == 'e' || a[0] == 'E') {
      var sign := if Peek(a, 1) == '+' || Peek(a, 1) == '-' then 1 else 0;
      assert Peek(a + w, 1) == '+' || Peek(a + w, 1) == '-' <==> sign == 1;
      Drop(a, w, 1 + sign);
      SpanLocal(a[1 + sign..], w, IsDigit);
    }
  }

  lemma OperatorLocal(a: string, w: string)
    requires |a| > 0 && Gap(w)
    ensures Operator(a + w) == Operator(a)
    ensures Operator(a).Token? ==> 0 < Operator(a).len <= |a|
  {
  }

  /** What follows a gap has no influence on the token before it. */
  lemma CodeLocal(a: string, w: string)
    requires |a| > 0 && Gap(w)
    ensures Code(a + w) == Code(a)
    ensures Code(a).Token? ==> 0 < Code(a).len <= |a|
  {
    if IsIdentStart(a[0]) {
      SpanLocal(a, w, IsIdentCont);
      Drop(a, w, Span(a, IsIdentCont));
    } else if IsDigit(a[0]) {
      if a[0] == '0' && |a| >= 2 && IsRadixMark(a[1]) {
        RadixLocal(a, w);
      } else {
        DecimalLocal(a, w);
      }
    } else {
      OperatorLocal(a, w);
    }
  }

  lemma UnescapeLocal(a: string, w: string)
    requires Gap(w)
    ensures Unescape(a + w) == Unescape(a)
  {
  }

  // ------------------------------------------------------------ lines and the whole

  predicate EndOrNewline(q: string) {
    |q| == 0 || q[0] == '\n'
  }

  lemma {:induction false} SpanToLineEnd(a: string, q: string)
    requires OneLine(a) && EndOrNewline(q)
    ensures Span(a + q, NotNewline) == |a|
    decreases |a|
  {
    if |a| == 0 {
      assert a + q == q;
    } else {
      assert (a + q)[1..] == a[1..] + q;
      SpanToLineEnd(a[1..], q);
    }
  }

  function Resume(r: LineOut, q: string): Lexed {
    match r case Stuck => Bad case Out(ts, m) => Before(ts, Lex(m, q))
  }

  lemma ResumeAdd(t: Tok, r: LineOut, q: string)
    ensures Resume(Add(t, r), q) == LexSpec.Then(t, Resume(r, q))
  {
    if r.Out? && Lex(r.mode, q).Good? {
      assert [t] + r.toks + Lex(r.mode, q).toks == [t] + (r.toks + Lex(r.mode, q).toks);
    }
  }

  /** Reading a line and then going on from its end mode is reading straight on. */
  lemma {:induction false} LineResumes(mode: Mode, s: string, q: string)
    requires OneLine(s) && EndOrNewline(q)
    ensures Lex(mode, s + q) == Resume(Line(mode, s), q)
    decreases |s|, 1
  {
    if |s| == 0 {
      assert s + q == q;
      NothingLeft(mode, q);
    } else {
      match mode
      case Between => BetweenResumes(s, q);
      case Comment(d) => CommentResumes(d, s, q);
      case InStr(text) => StrResumes(text, s, q);
      case Quote => QuoteResumes(s, q);
      case Close(c) =>
        Drop(s, q, 1);
        if s[0] == '\'' {
          LineResumes(Between, s[1..], q);
          ResumeAdd(ChrTok(c), Line(Between, s[1..]), q);
        }
    }
  }

  lemma {:induction false} CommentResumes(d: nat, s: string, q: string)
    requires OneLine(s) && EndOrNewline(q) && |s| > 0
    ensures Lex(Comment(d), s + q) == Resume(Line(Comment(d), s), q)
    decreases |s|, 0
  {
    StepComment(d, s);
    Drop(s, q, 1);
    assert Peek(s + q, 1) == '/' <==> Peek(s, 1) == '/';
    assert Peek(s + q, 1) == '*' <==> Peek(s, 1) == '*';
    if s[0] == '/' && Peek(s, 1) == '*' {
      Drop(s, q, 2);
      LineResumes(Comment(d + 1), s[2..], q);
    } else if s[0] == '*' && Peek(s, 1) == '/' {
      Drop(s, q, 2);
      LineResumes(if d <= 1 then Between else Comment(d - 1), s[2..], q);
    } else {
      LineResumes(Comment(d), s[1..], q);
    }
  }

  lemma {:induction false} StrResumes(text: string, s: string, q: string)
    requires OneLine(s) && EndOrNewline(q) && |s| > 0
    ensures Lex(InStr(text), s + q) == Resume(Line(InStr(text), s), q)
    decreases |s|, 0
  {
    StepStr(text, s);
    Drop(s, q, 1);
    if s[0] == '"' {
      LineResumes(Between, s[1..], q);
      ResumeAdd(StrTok(text), Line(Between, s[1..]), q);
    } else if s[0] == '\\' {
      UnescapeLocal(s[1..], q);
      if Unescape(s[1..]).Escape? {
        var n := 1 + Unescape(s[1..]).len;
        Drop(s, q, n);
        LineResumes(InStr(text + [Unescape(s[1..]).c]), s[n..], q);
      }
    } else {
      LineResumes(InStr(text + [s[0]]), s[1..], q);
    }
  }

  lemma {:induction false} QuoteResumes(s: string, q: string)
    requires OneLine(s) && EndOrNewline(q) && |s| > 0
    ensures Lex(Quote, s + q) == Resume(Line(Quote, s), q)
    decreases |s|, 0
  {
    StepQuote(s);
    Drop(s, q, 1);
    if s[0] == '\\' {
      UnescapeLocal(s[1..], q);
      if Unescape(s[1..]).Escape? {
        var n := 1 + Unescape(s[1..]).len;
        Drop(s, q, n);
        LineResumes(Close(Unescape(s[1..]).c), s[n..], q);
      }
    } else if s[0] != '\0' {
      LineResumes(Close(s[0]), s[1..], q);
    }
  }

  lemma NothingLeft(mode: Mode, q: string)
    requires EndOrNewline(q)
    ensures Lex(mode, q) == Resume(Line(mode, ""), q)
  {
    if Lex(mode, q).Good? { assert [] + Lex(mode, q).toks == Lex(mode, q).toks; }
    if mode.Close? && |q| > 0 { assert q[0] == '\n'; }
  }

  lemma {:induction false} BetweenResumes(s: string, q: string)
    requires OneLine(s) && EndOrNewline(q) && |s| > 0
    ensures Lex(Between, s + q) == Resume(Line(Between, s), q)
    decreases |s|, 0
  {
    var all := s + q;
    StepBetween(s);
    Drop(s, q, 1);
    assert Peek(all, 1) == '/' <==> Peek(s, 1) == '/';
    assert Peek(all, 1) == '*' <==> Peek(s, 1) == '*';
    if IsSpace(s[0]) {
      LineResumes(Between, s[1..], q);
    } else if s[0] == '/' && Peek(s, 1) == '/' {
      SpanToLineEnd(s, q);
      assert all[|s|..] == q;
      NothingLeft(Between, q);
    } else if s[0] == '/' && Peek(s, 1) == '*' {
      Drop(s, q, 2);
      LineResumes(Comment(1), s[2..], q);
    } else if s[0] == '\'' {
      LineResumes(Quote, s[1..], q);
    } else if s[0] == '"' {
      LineResumes(InStr(""), s[1..], q);
    } else {
      CodeLocal(s, q);
      if Code(s).Token? {
        var n := Code(s).len;
        Drop(s, q, n);
        LineResumes(Between, s[n..], q);
        ResumeAdd(Code(s).tok, Line(Between, s[n..]), q);
      }
    }
  }

  lemma NewlineStep(mode: Mode, q: string)
    ensures mode.Close? ==> Lex(mode, "\n" + q) == Bad
    ensures !mode.Close? ==> Lex(mode, "\n" + q) == Lex(AfterNewline(mode), q)
  {
    assert ("\n" + q)[0] == '\n' && ("\n" + q)[1..] == q;
  }

  /** The mode at the end of a line is never `Close`. */
  lemma {:induction false} NoCloseAtEnd(mode: Mode, s: string)
    requires Line(mode, s).Out?
    ensures !Line(mode, s).mode.Close?
    decreases |s|
  {
    if |s| > 0 {
      match mode
      case Between =>
        if IsSpace(s[0]) { NoCloseAtEnd(Between, s[1..]); }
        else if s[0] == '/' && Peek(s, 1) == '/' {}
        else if s[0] == '/' && Peek(s, 1) == '*' { NoCloseAtEnd(Comment(1), s[2..]); }
        else if s[0] == '\'' { NoCloseAtEnd(Quote, s[1..]); }
        else if s[0] == '"' { NoCloseAtEnd(InStr(""), s[1..]); }
        else { NoCloseAtEnd(Between, s[Code(s).len..]); }
      case Comment(d) =>
        if s[0] == '/' && Peek(s, 1) == '*' { NoCloseAtEnd(Comment(d + 1), s[2..]); }
        else if s[0] == '*' && Peek(s, 1) == '/' { NoCloseAtEnd(if d <= 1 then Between else Comment(d - 1), s[2..]); }
        else { NoCloseAtEnd(mode, s[1..]); }
      case InStr(text) =>
        if s[0] == '"' { NoCloseAtEnd(Between, s[1..]); }
        else if s[0] == '\\' { NoCloseAtEnd(InStr(text + [Unescape(s[1..]).c]), s[1 + Unescape(s[1..]).len..]); }
        else { NoCloseAtEnd(InStr(text + [s[0]]), s[1..]); }
      case Quote =>
        if s[0] == '\\' { NoCloseAtEnd(Close(Unescape(s[1..]).c), s[1 + Unescape(s[1..]).len..]); }
        else { NoCloseAtEnd(Close(s[0]), s[1..]); }
      case Close(c) => NoCloseAtEnd(Between, s[1..]);
    }
  }

  /** Lexing the text is lexing its lines. */
  lemma {:induction false} LexIsLines(mode: Mode, lines: seq<string>)
    requires |lines| > 0 && forall l | l in lines :: OneLine(l)
    ensures Lex(mode, Join(lines)) == Lines(mode, lines)
    decreases |lines|
  {
    assert lines[0] in lines;
    var r := Line(mode, lines[0]);
    if |lines| == 1 {
      LineResumes(mode, lines[0], "");
      assert lines[0] + "" == lines[0];
    } else {
      var rest := lines[1..];
      assert forall l | l in rest :: l in lines;
      var q := "\n" + Join(rest);
      assert Join(lines) == lines[0] + q;
      LineResumes(mode, lines[0], q);
      if r.Out? {
        LexIsLines(AfterNewline(r.mode), rest);
        NoCloseAtEnd(mode, lines[0]);
        NewlineStep(r.mode, Join(rest));
      }
    }
  }
}
