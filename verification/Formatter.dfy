/** The formatter's loops, proved to compute `Scan`, `Format` and `FormatChecked`. */
module Formatter {
  import opened LexSpec
  import opened LexLines
  import opened FmtSpec
  import opened Lexing

  lemma FromFrom(s: string, i: nat, n: nat)
    ensures From(From(s, i), n) == From(s, i + n)
  {
  }

  /** The records still to come from position `i` on. */
  function ToCome(st: St, depth: int, src: string, i: nat): seq<LineInfo> {
    ScanRest(st, depth, From(src, i))
  }

  function Second(src: string, i: nat): char {
    if i + 1 < |src| then src[i + 1] else '\0'
  }

  lemma Ahead(src: string, i: nat)
    requires i < |src|
    ensures |From(src, i)| > 0 && From(src, i)[0] == src[i] && From(src, i)[1..] == From(src, i + 1)
    ensures Peek(From(src, i), 1) == Second(src, i) && From(From(src, i), 2) == From(src, i + 2)
  {
  }

  lemma NewlineStep(st: St, depth: int, src: string, i: nat)
    requires i < |src| && src[i] == '\n'
    ensures ToCome(st, depth, src, i) == [LineInfo(depth, st != Normal)] + ToCome(st, depth, src, i + 1)
  {
    Ahead(src, i);
  }

  /** Past the end of a line comment, the newline not included. */
  method SkipLineComment(src: string, from: nat) returns (i: nat)
    ensures i == from + Span(From(src, from), NotNewline)
  {
    i := from;
    while i < |src| && src[i] != '\n'
      invariant i + Span(From(src, i), NotNewline) == from + Span(From(src, from), NotNewline)
    {
      Ahead(src, i);
      i := i + 1;
    }
  }

  lemma CommentStep(depth: int, src: string, i: nat, n: nat)
    requires i < |src| && src[i] == '/' && Second(src, i) == '/' && n == Span(From(src, i + 2), NotNewline)
    ensures ToCome(Normal, depth, src, i) == ToCome(Normal, depth, src, i + 2 + n)
  {
    Ahead(src, i);
    CommentAt(depth, From(src, i), n);
    FromFrom(src, i, 2 + n);
  }

  lemma CommentAt(depth: int, s: string, n: nat)
    requires |s| > 0 && s[0] == '/' && Peek(s, 1) == '/' && n == Span(From(s, 2), NotNewline)
    ensures ScanRest(Normal, depth, s) == ScanRest(Normal, depth, From(s, 2 + n))
  {
  }

  /** One step in code. */
  method StepNormal(src: string, i: nat, depth: int) returns (st: St, newDepth: int, next: nat)
    requires i < |src| && src[i] != '\n'
    ensures next > i && ToCome(Normal, depth, src, i) == ToCome(st, newDepth, src, next)
  {
    st, newDepth, next := Normal, depth, i + 1;
    if src[i] == '/' && Second(src, i) == '/' {
      next := SkipLineComment(src, i + 2);
      CommentStep(depth, src, i, next - i - 2);
      return;
    }
    Ahead(src, i);
    if src[i] == '/' && Second(src, i) == '*' {
      st, next := Block(1), i + 2;
    } else if src[i] == '"' {
      st := Str;
    } else if src[i] == '\'' {
      st := Chr;
    } else if Opens(src[i]) {
      newDepth := depth + 1;
    } else if Closes(src[i]) {
      newDepth := depth - 1;
    }
  }

  /** One step in a block comment. */
  method StepBlock(src: string, i: nat, d: nat, ghost depth: int) returns (st: St, next: nat)
    requires i < |src| && src[i] != '\n'
    ensures next > i && ToCome(Block(d), depth, src, i) == ToCome(st, depth, src, next)
  {
    Ahead(src, i);
    if src[i] == '/' && Second(src, i) == '*' {
      st, next := Block(d + 1), i + 2;
    } else if src[i] == '*' && Second(src, i) == '/' {
      st, next := if d <= 1 then Normal else Block(d - 1), i + 2;
    } else {
      st, next := Block(d), i + 1;
    }
  }

  /** One step in a string or a character. */
  method StepLiteral(src: string, i: nat, st: St, ghost depth: int) returns (newSt: St, next: nat)
    requires i < |src| && src[i] != '\n' && (st == Str || st == Chr)
    ensures next > i && ToCome(st, depth, src, i) == ToCome(newSt, depth, src, next)
  {
    Ahead(src, i);
    if src[i] == '\\' {
      newSt, next := st, i + 2;
    } else if src[i] == (if st == Str then '"' else '\'') {
      newSt, next := Normal, i + 1;
    } else {
      newSt, next := st, i + 1;
    }
  }

  lemma Glue(a: seq<LineInfo>, b: seq<LineInfo>, c: seq<LineInfo>)
    ensures a + (b + c) == a + b + c
  {
  }

  method ScanSource(src: string) returns (lines: seq<LineInfo>)
    ensures lines == Scan(src)
  {
    var st, depth, i := Normal, 0, 0;
    lines := [LineInfo(0, false)];
    assert From(src, 0) == src;
    while i < |src|
      invariant lines + ToCome(st, depth, src, i) == Scan(src)
      decreases |src| - i
    {
      if src[i] == '\n' {
        NewlineStep(st, depth, src, i);
        Glue(lines, [LineInfo(depth, st != Normal)], ToCome(st, depth, src, i + 1));
        lines := lines + [LineInfo(depth, st != Normal)];
        i := i + 1;
      } else if st == Normal {
        st, depth, i := StepNormal(src, i, depth);
      } else if st.Block? {
        st, i := StepBlock(src, i, st.depth, depth);
      } else {
        st, i := StepLiteral(src, i, st, depth);
      }
    }
    assert ToCome(st, depth, src, i) == [];
    assert lines + [] == lines;
  }

  /** Re-indent what is left of a line. */
  method LayContent(content: string, depth: int) returns (text: string)
    ensures text == Laid(content, depth)
  {
    if content == "" { return ""; }
    var leadClosers := CountClosers(content);
    var indent := Indentation(if depth - leadClosers > 0 then depth - leadClosers else 0);
    text := indent + content;
  }

  method LayLine(infos: seq<LineInfo>, i: nat, raw: string) returns (line: Built)
    ensures line == BuildLine(infos, i, raw)
  {
    var info, endsVerbatim := InfoAt(infos, i), InfoAt(infos, i + 1).verbatim;
    if info.verbatim { return Built(raw, true); }
    var text := LayContent(Content(raw, endsVerbatim), info.depth);
    line := Built(text, false);
  }

  /** Lay out each line; the result remembers which lines are verbatim. */
  method BuildLines(infos: seq<LineInfo>, lines: seq<string>) returns (built: seq<Built>)
    ensures built == Build(infos, 0, lines)
  {
    built := [];
    var i := 0;
    assert lines[0..] == lines;
    GlueBuilt([], [], Build(infos, 0, lines));
    while i < |lines|
      invariant i <= |lines|
      invariant built + Build(infos, i, lines[i..]) == Build(infos, 0, lines)
    {
      var line := LayLine(infos, i, lines[i]);
      BuildUnrolls(infos, i, lines);
      GlueBuilt(built, [line], Build(infos, i + 1, lines[i + 1..]));
      built, i := built + [line], i + 1;
    }
    GlueBuilt(built, [], []);
  }

  lemma BuildUnrolls(infos: seq<LineInfo>, i: nat, lines: seq<string>)
    requires i < |lines|
    ensures Build(infos, i, lines[i..]) == [BuildLine(infos, i, lines[i])] + Build(infos, i + 1, lines[i + 1..])
  {
    assert lines[i..][1..] == lines[i + 1..];
  }

  lemma GlueBuilt(a: seq<Built>, b: seq<Built>, c: seq<Built>)
    ensures a + (b + c) == a + b + c
    ensures a + [] == a && [] + c == c
  {
  }

  lemma GlueLines(a: seq<string>, b: seq<string>, c: seq<string>)
    ensures a + (b + c) == a + b + c
    ensures a + ([] + b + c) == a + b + c
  {
  }

  method CountClosers(content: string) returns (n: nat)
    ensures n == LeadClosers(content)
  {
    n := 0;
    assert content[0..] == content;
    while n < |content| && Closes(content[n])
      invariant n <= |content| && n + LeadClosers(content[n..]) == LeadClosers(content)
    {
      assert content[n..][1..] == content[n + 1..];
      n := n + 1;
    }
  }

  method Indentation(levels: nat) returns (text: string)
    ensures text == Indent(levels)
  {
    text := "";
    var i := 0;
    while i < levels
      invariant i <= levels && text == Indent(i)
    {
      SpacesCommute(i);
      text, i := text + "    ", i + 1;
    }
  }

  lemma {:induction false} SpacesCommute(n: nat)
    ensures Indent(n) + "    " == Indent(n + 1)
  {
    if n > 0 {
      SpacesCommute(n - 1);
      assert "    " + Indent(n - 1) + "    " == "    " + (Indent(n - 1) + "    ");
    } else {
      assert "" + "    " == "    " + "";
    }
  }

  method CollapseBlanks(built: seq<Built>) returns (out: seq<string>)
    ensures out == Collapse(built, false, false)
  {
    out := [];
    var pendingBlank, seenContent, i := false, false, 0;
    assert built[0..] == built && [] + Collapse(built, false, false) == Collapse(built, false, false);
    while i < |built|
      invariant i <= |built|
      invariant out + Collapse(built[i..], pendingBlank, seenContent) == Collapse(built, false, false)
    {
      var line := built[i];
      ghost var rest := built[i + 1..];
      assert built[i..][1..] == rest && built[i..][0] == line;
      if IsBlank(line) {
        if seenContent { pendingBlank := true; }
      } else {
        GlueLines(out, [line.text], Collapse(rest, false, true));
        if pendingBlank {
          GlueLines(out + [""], [line.text], Collapse(rest, false, true));
          GlueLines(out, [""], [line.text] + Collapse(rest, false, true));
          GlueLines([], [""], [line.text]);
          assert [""] + [line.text] + Collapse(rest, false, true) == [""] + ([line.text] + Collapse(rest, false, true));
          out := out + [""];
          pendingBlank := false;
        }
        out := out + [line.text];
        seenContent := true;
      }
      i := i + 1;
    }
    assert out + [] == out;
  }

  method FormatSource(src: string) returns (text: string)
    ensures text == Format(src)
  {
    var infos := ScanSource(src);
    var built := BuildLines(infos, Split(src));
    var out := CollapseBlanks(built);
    text := Join(out);
    if text != "" { text := text + "\n"; }
  }

  method LexKinds(src: string) returns (kinds: Lexed)
    ensures kinds == Tokens(src)
  {
    var lexer := new Lexer(src);
    kinds := lexer.Tokenize();
  }

  method FormatCheckedSource(src: string) returns (r: Checked)
    ensures r == FormatChecked(src)
  {
    var out := FormatSource(src);
    if out == src { return Accepted(out); }
    var before := LexKinds(src);
    if before.Bad? { return InputDoesNotLex; }
    var after := LexKinds(out);
    if after.Bad? { return OutputDoesNotLex; }
    if before != after { return TokensChanged; }
    r := Accepted(out);
  }
}
