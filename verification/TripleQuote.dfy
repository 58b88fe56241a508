/** Why the three-quote literal is excluded: the scanner and the lexer part ways on it. */
module TripleQuote {
  import opened LexSpec
  import opened LexLines
  import opened FmtSpec
  import opened FmtLines

  const FIRST := "'''\"'"
  const SECOND := "  x\""

  lemma FirstLexes()
    ensures Line(Between, FIRST) == Out([ChrTok('\'')], InStr("'"))
  {
    var a, b, c, d := FIRST[1..], FIRST[2..], FIRST[3..], FIRST[4..];
    assert a[1..] == b && b[1..] == c && c[1..] == d && d[1..] == "";
    assert Line(Close('\''), b) == Add(ChrTok('\''), Line(Between, c));
    assert Line(Between, c) == Line(InStr(""), d);
    assert [] + ['\''] == ['\''];
    assert Line(InStr(""), d) == Line(InStr("'"), "");
    assert [ChrTok('\'')] + [] == [ChrTok('\'')];
  }

  lemma InString(text: string, c: char, s: string)
    requires c != '"' && c != '\\'
    ensures Line(InStr(text), [c] + s) == Line(InStr(text + [c]), s)
  {
    assert ([c] + s)[1..] == s;
  }

  lemma Closes(text: string)
    ensures Line(InStr(text), "x\"") == Out([StrTok(text + "x")], Between)
  {
    InString(text, 'x', "\"");
    assert "x\"" == ['x'] + "\"";
    assert "\""[1..] == "";
    assert [StrTok(text + "x")] + [] == [StrTok(text + "x")];
  }

  lemma JoinTwo(a: string, b: string)
    ensures Join([a, b]) == a + "\n" + b
  {
    assert [a, b][1..] == [b];
  }

  lemma JoinThree(a: string, b: string, c: string)
    ensures Join([a, b, c]) == a + "\n" + (b + "\n" + c)
  {
    assert [a, b, c][1..] == [b, c];
    JoinTwo(b, c);
  }

  lemma SourceTokens(src: string)
    requires src == FIRST + "\n" + SECOND
    ensures Tokens(src) == Good([ChrTok('\''), StrTok("'\n  x"), Eof])
  {
    var lines := [FIRST, SECOND];
    assert lines[1..] == [SECOND];
    JoinTwo(FIRST, SECOND);
    LexIsLines(Between, lines);
    FirstLexes();
    InString("'\n", ' ', " x\"");
    InString("'\n ", ' ', "x\"");
    Closes("'\n  ");
    assert SECOND == [' '] + " x\"" && " x\"" == [' '] + "x\"";
    assert "'\n" + [' '] == "'\n " && "'\n " + [' '] == "'\n  " && "'\n  " + "x" == "'\n  x";
    assert "'" + ['\n'] == "'\n";
    assert Lines(InStr("'\n"), [SECOND]) == Good([StrTok("'\n  x")] + [Eof]);
  }

  lemma OutputTokens(out: string)
    requires out == FIRST + "\n" + "x\"" + "\n"
    ensures Tokens(out) == Good([ChrTok('\''), StrTok("'\nx"), Eof])
  {
    var lines := [FIRST, "x\"", ""];
    assert lines[1..] == ["x\"", ""] && lines[1..][1..] == [""];
    JoinThree(FIRST, "x\"", "");
    assert FIRST + "\n" + ("x\"" + "\n" + "") == out;
    LexIsLines(Between, lines);
    FirstLexes();
    Closes("'\n");
    assert "'" + ['\n'] == "'\n" && "'\n" + "x" == "'\nx";
    assert Lines(Between, [""]) == Good([] + [Eof]);
  }

  lemma FirstScans()
    ensures ScanLine(Normal, 0, FIRST) == Carry(Normal, 0, false)
  {
    var a, b, c, d := FIRST[1..], FIRST[2..], FIRST[3..], FIRST[4..];
    assert a[1..] == b && b[1..] == c && c[1..] == d && d[1..] == "";
    assert ScanLine(Normal, 0, FIRST) == ScanLine(Chr, 0, a);
    assert ScanLine(Chr, 0, a) == ScanLine(Normal, 0, b);
    assert ScanLine(Normal, 0, b) == ScanLine(Chr, 0, c);
    assert ScanLine(Chr, 0, c) == ScanLine(Chr, 0, d);
  }

  lemma SecondScans()
    ensures ScanLine(Normal, 0, SECOND) == Carry(Str, 0, false)
  {
    var a, b, c := SECOND[1..], SECOND[2..], SECOND[3..];
    assert a[1..] == b && b[1..] == c && c[1..] == "";
    assert ScanLine(Normal, 0, SECOND) == ScanLine(Normal, 0, a);
    assert ScanLine(Normal, 0, a) == ScanLine(Normal, 0, b);
    assert ScanLine(Normal, 0, b) == ScanLine(Normal, 0, c);
  }

  lemma Trims()
    ensures Trim(FIRST) == FIRST && Trim(SECOND) == "x\""
  {
    assert SECOND[1..] == " x\"" && " x\""[1..] == "x\"";
    assert TrimStart(SECOND) == TrimStart(" x\"");
    assert TrimStart(" x\"") == "x\"";
    assert BlankLenAtEnd("x\"") == 0;
    assert BlankLenAtEnd(FIRST) == 0;
  }

  /** A line of code, built. */
  lemma HeadIs(a: string, x: string, more: seq<string>)
    requires Trim(a) == x && x != "" && LeadClosers(x) == 0
    requires |more| > 0 ==> ScanLine(Normal, 0, a) == Carry(Normal, 0, false)
    ensures BuiltHead(Normal, 0, [a] + more) == Built(x, false)
  {
    assert ([a] + more)[0] == a;
    assert "" + x == x;
  }

  lemma TwoBuilt(a: string, b: string, first: Built, second: Built)
    requires ScanLine(Normal, 0, a) == Carry(Normal, 0, false)
    requires BuiltHead(Normal, 0, [a, b]) == first && BuiltHead(Normal, 0, [b]) == second
    ensures BuildFrom(Normal, 0, [a, b]) == [first] + ([second] + [])
    ensures Unspliced(Normal, 0, [a, b]) == !ScanLine(Normal, 0, b).spliced
  {
    assert [a, b][1..] == [b] && [b][1..] == [];
    var c := ScanLine(Normal, 0, b);
    assert Unspliced(c.st, c.depth, []);
    assert Unspliced(Normal, 0, [b]) == !c.spliced;
    assert BuildFrom(Normal, 0, [b]) == [second] + [];
  }

  /** A two-line file whose lines are both code and text. */
  lemma TwoLines(a: string, b: string, x: string, y: string)
    requires CodeLines(a, b, x, y)
    ensures Format(a + "\n" + b) == x + "\n" + y + "\n"
  {
    HeadIs(a, x, [b]);
    HeadIs(b, y, []);
    assert [a] + [b] == [a, b] && [b] + [] == [b];
    TwoBuilt(a, b, Built(x, false), Built(y, false));
    TwoTexts(Built(x, false), Built(y, false));
    FormatIsOutLines([a, b]);
    JoinTwo(a, b);
    JoinTwo(x, y);
  }

  lemma TwoTexts(first: Built, second: Built)
    requires !IsBlank(first) && !IsBlank(second)
    ensures Collapse([first] + ([second] + []), false, false) == [first.text, second.text]
  {
    var bs := [first] + ([second] + []);
    assert bs[1..] == [second] && [second][1..] == [];
    assert Collapse([], false, true) == [];
    assert Collapse([second], false, true) == [] + [second.text] + [];
    assert Collapse(bs, false, false) == [] + [first.text] + [second.text];
  }

  predicate CodeLines(a: string, b: string, x: string, y: string) {
    && ScanLine(Normal, 0, a) == Carry(Normal, 0, false) && !ScanLine(Normal, 0, b).spliced
    && OneLine(a) && OneLine(b) && x != "" && y != ""
    && Trim(a) == x && Trim(b) == y && LeadClosers(x) == LeadClosers(y) == 0
  }

  lemma NoClosers()
    ensures OneLine(FIRST) && OneLine(SECOND)
    ensures LeadClosers(FIRST) == 0 && LeadClosers("x\"") == 0
  {
  }

  lemma SourceLines()
    ensures CodeLines(FIRST, SECOND, FIRST, "x\"")
  {
    FirstScans();
    SecondScans();
    Trims();
    NoClosers();
  }

  /** The string literal loses the indentation of its second line; the checked formatter
      refuses. */
  lemma FormatChangesTokens(src: string)
    requires src == FIRST + "\n" + SECOND
    ensures Tokens(src).Good? && Tokens(Format(src)) != Tokens(src)
    ensures FormatChecked(src) == TokensChanged
  {
    SourceLines();
    TwoLines(FIRST, SECOND, FIRST, "x\"");
    SourceTokens(src);
    OutputTokens(Format(src));
    Refused(src, "'\n  x", "'\nx");
  }

  lemma Refused(src: string, a: string, b: string)
    requires Tokens(src) == Good([ChrTok('\''), StrTok(a), Eof])
    requires Tokens(Format(src)) == Good([ChrTok('\''), StrTok(b), Eof])
    requires |a| != |b|
    ensures Tokens(src).toks[1] != Tokens(Format(src)).toks[1]
    ensures FormatChecked(src) == TokensChanged
  {
  }
}
