/** Formatting twice is formatting once, for every source whose scan ends outside
    literals and comments; and only then, on sources the formatter reads line by line. */
module Idempotence {
  import opened LexSpec
  import opened LexLines
  import opened FmtSpec
  import opened FmtLines
  import opened TokenPreservation

  /** The scanner's state after the last of `lines`. */
  function EndState(st: St, depth: int, lines: seq<string>): St
    decreases |lines|
  {
    if |lines| == 0 then st
    else
      var c := ScanLine(st, depth, lines[0]);
      EndState(c.st, c.depth, lines[1..])
  }

  // ------------------------------------------------------- white space and the scanner

  /** Bytes that change nothing wherever the scanner is, unless escaped. */
  predicate Inert(w: string) {
    forall c | c in w :: Plain(c) && c != '*' && c != '\\' && !Opens(c) && !Closes(c)
  }

  lemma UnitIsInert(w: string)
    requires IsUnit(w)
    ensures Inert(w)
  {
    UnitIsGap(w);
    assert |w| == 1 ==> w == [w[0]];
    assert |w| == 2 ==> w == [w[0], w[1]];
    assert |w| == 3 ==> w == [w[0], w[1], w[2]];
  }

  lemma {:induction false} ScanInert(st: St, depth: int, w: string)
    requires Inert(w)
    ensures ScanLine(st, depth, w) == Carry(st, depth, false)
    decreases |w|
  {
    if |w| > 0 {
      assert w[0] in w && forall c | c in w[1..] :: c in w;
      ScanInert(st, depth, w[1..]);
    }
  }

  lemma {:induction false} ScanPastInert(depth: int, w: string, x: string)
    requires Inert(w)
    ensures ScanLine(Normal, depth, w + x) == ScanLine(Normal, depth, x)
    decreases |w|
  {
    if |w| == 0 {
      assert w + x == x;
    } else {
      assert w[0] in w && forall c | c in w[1..] :: c in w;
      assert (w + x)[0] == w[0] && (w + x)[1..] == w[1..] + x;
      ScanPastInert(depth, w[1..], x);
    }
  }

  lemma {:induction false} IndentIsInert(levels: nat)
    ensures Inert(Indent(levels))
  {
    IndentIsBlank(levels);
  }

  lemma {:induction false} TrimStartScan(depth: int, s: string)
    ensures ScanLine(Normal, depth, TrimStart(s)) == ScanLine(Normal, depth, s)
    decreases |s|
  {
    var n := BlankLen(s);
    if n > 0 {
      var w, x := s[..n], s[n..];
      assert s == w + x;
      BlankPrefix(s, n);
      UnitIsInert(w);
      ScanPastInert(depth, w, x);
      TrimStartScan(depth, x);
    }
  }

  lemma BlankPrefix(s: string, n: nat)
    requires n == BlankLen(s) > 0
    ensures BlankLen(s[..n]) == n
  {
  }

  /** Trailing bytes that mean nothing leave the state at the end of the line as it
      was, unless they hid an escape at its end. */
  predicate SameEnd(a: Carry, b: Carry) {
    a == b || (a.spliced && b.st != Normal && a.st == b.st)
  }

  lemma {:induction false} ScanTrailing(st: St, depth: int, x: string, w: string)
    requires Inert(w) && !ScanLine(st, depth, x + w).spliced
    ensures SameEnd(ScanLine(st, depth, x), ScanLine(st, depth, x + w))
    decreases |x|, 1
  {
    if |x| == 0 {
      assert x + w == w;
      ScanInert(st, depth, w);
    } else {
      match st
      case Normal => TrailingNormal(depth, x, w);
      case Block(d) => TrailingBlock(d, depth, x, w);
      case Str => TrailingLiteral(Str, '"', depth, x, w);
      case Chr => TrailingLiteral(Chr, '\'', depth, x, w);
    }
  }

  lemma UnfoldInert(x: string, w: string)
    requires |x| > 0 && Inert(w)
    ensures (x + w)[0] == x[0] && (x + w)[1..] == x[1..] + w
    ensures Peek(x + w, 1) == '/' <==> Peek(x, 1) == '/'
    ensures Peek(x + w, 1) == '*' <==> Peek(x, 1) == '*'
    ensures |x| >= 2 ==> (x + w)[2..] == x[2..] + w
  {
    assert |w| > 0 ==> w[0] in w;
    Drop(x, w, 1);
    if |x| >= 2 { Drop(x, w, 2); }
  }

  lemma {:induction false} TrailingNormal(depth: int, x: string, w: string)
    requires |x| > 0 && Inert(w) && !ScanLine(Normal, depth, x + w).spliced
    ensures SameEnd(ScanLine(Normal, depth, x), ScanLine(Normal, depth, x + w))
    decreases |x|, 0
  {
    UnfoldInert(x, w);
    if x[0] == '/' && Peek(x, 1) == '/' {
    } else if x[0] == '/' && Peek(x, 1) == '*' {
      ScanTrailing(Block(1), depth, x[2..], w);
    } else if x[0] == '"' {
      ScanTrailing(Str, depth, x[1..], w);
    } else if x[0] == '\'' {
      ScanTrailing(Chr, depth, x[1..], w);
    } else {
      ScanTrailing(Normal, if Opens(x[0]) then depth + 1 else if Closes(x[0]) then depth - 1 else depth, x[1..], w);
    }
  }

  lemma {:induction false} TrailingBlock(d: nat, depth: int, x: string, w: string)
    requires |x| > 0 && Inert(w) && !ScanLine(Block(d), depth, x + w).spliced
    ensures SameEnd(ScanLine(Block(d), depth, x), ScanLine(Block(d), depth, x + w))
    decreases |x|, 0
  {
    UnfoldInert(x, w);
    if x[0] == '/' && Peek(x, 1) == '*' {
      ScanTrailing(Block(d + 1), depth, x[2..], w);
    } else if x[0] == '*' && Peek(x, 1) == '/' {
      ScanTrailing(if d <= 1 then Normal else Block(d - 1), depth, x[2..], w);
    } else {
      ScanTrailing(Block(d), depth, x[1..], w);
    }
  }

  lemma {:induction false} TrailingLiteral(st: St, end: char, depth: int, x: string, w: string)
    requires (st == Str && end == '"') || (st == Chr && end == '\'')
    requires |x| > 0 && Inert(w) && !ScanLine(st, depth, x + w).spliced
    ensures SameEnd(ScanLine(st, depth, x), ScanLine(st, depth, x + w))
    decreases |x|, 0
  {
    UnfoldInert(x, w);
    if x[0] == '\\' {
      if |x| == 1 {
        EscapedUnit(st, depth, x, w);
      } else {
        ScanTrailing(st, depth, x[2..], w);
      }
    } else {
      ScanTrailing(if x[0] == end then Normal else st, depth, x[1..], w);
    }
  }

  lemma EscapedUnit(st: St, depth: int, x: string, w: string)
    requires st == Str || st == Chr
    requires |x| == 1 && x[0] == '\\' && Inert(w) && !ScanLine(st, depth, x + w).spliced
    ensures ScanLine(st, depth, x + w) == Carry(st, depth, false)
    ensures ScanLine(st, depth, x) == Carry(st, depth, true)
  {
    var rest := (x + w)[2..];
    assert rest == w[1..] && forall c | c in rest :: c in w;
    ScanInert(st, depth, rest);
  }

  lemma {:induction false} SplicedEnd(st: St, depth: int, s: string)
    requires ScanLine(st, depth, s).spliced
    ensures |s| > 0 && s[|s| - 1] == '\\'
    decreases |s|
  {
    if |s| >= 2 {
      assert s[1..][|s| - 2] == s[|s| - 1];
      assert |s| >= 3 ==> s[2..][|s| - 3] == s[|s| - 1];
      if st == Normal {
        if s[0] == '/' && Peek(s, 1) == '*' { SplicedEnd(Block(1), depth, s[2..]); }
        else if s[0] == '"' { SplicedEnd(Str, depth, s[1..]); }
        else if s[0] == '\'' { SplicedEnd(Chr, depth, s[1..]); }
        else {
          SplicedEnd(Normal, if Opens(s[0]) then depth + 1 else if Closes(s[0]) then depth - 1 else depth, s[1..]);
        }
      } else if st.Block? {
        if s[0] == '/' && Peek(s, 1) == '*' { SplicedEnd(Block(st.depth + 1), depth, s[2..]); }
        else if s[0] == '*' && Peek(s, 1) == '/' {
          SplicedEnd(if st.depth <= 1 then Normal else Block(st.depth - 1), depth, s[2..]);
        } else { SplicedEnd(st, depth, s[1..]); }
      } else if s[0] == '\\' {
        SplicedEnd(st, depth, s[2..]);
      } else {
        SplicedEnd(ScanState(st, s[0]), depth, s[1..]);
      }
    }
  }

  /** One step of the scanner inside a literal. */
  function ScanState(st: St, c: char): St {
    if (st == Str && c == '"') || (st == Chr && c == '\'') then Normal else st
  }

  lemma BlankEnd(s: string)
    requires BlankLenAtEnd(s) > 0
    ensures s[|s| - 1] != '\\'
  {
    var n := BlankLenAtEnd(s);
    var w := s[|s| - n..];
    UnitIsGap(w);
    assert w[n - 1] in w && w[n - 1] == s[|s| - 1];
  }

  lemma {:induction false} TrimEndScan(depth: int, s: string)
    requires !ScanLine(Normal, depth, s).spliced
    ensures SameEnd(ScanLine(Normal, depth, TrimEnd(s)), ScanLine(Normal, depth, s))
    decreases |s|
  {
    var n := BlankLenAtEnd(s);
    if n > 0 {
      var x, w := s[..|s| - n], s[|s| - n..];
      assert s == x + w;
      UnitIsInert(w);
      ScanTrailing(Normal, depth, x, w);
      if ScanLine(Normal, depth, x).spliced {
        SplicedEnd(Normal, depth, x);
        if BlankLenAtEnd(x) > 0 { BlankEnd(x); }
      } else {
        TrimEndScan(depth, x);
      }
    }
  }

  // ----------------------------------------------------------- a line laid out twice

  lemma PrefixStartsBare(p: string, s: string)
    requires IsPrefix(p, s) && BlankLen(s) == 0
    ensures BlankLen(p) == 0
  {
  }

  lemma TrimmedIsBare(raw: string, ends: bool)
    ensures BlankLen(Content(raw, ends)) == 0
    ensures !ends ==> BlankLenAtEnd(Content(raw, ends)) == 0
  {
    TrimStartIs(raw);
    if !ends {
      TrimEndIsPrefix(TrimStart(raw));
      PrefixStartsBare(Trim(raw), TrimStart(raw));
      TrimEndEndsBare(TrimStart(raw));
    }
  }

  lemma {:induction false} TrimIndent(levels: nat, s: string)
    requires BlankLen(s) == 0
    ensures TrimStart(Indent(levels) + s) == s
    decreases levels
  {
    if levels == 0 {
      assert Indent(0) + s == s;
    } else {
      TrimIndent(levels - 1, s);
      var t := Indent(levels - 1) + s;
      assert Indent(levels) + s == "    " + t;
      TrimSpaces(t);
    }
  }

  lemma TrimSpaces(s: string)
    ensures TrimStart("    " + s) == TrimStart(s)
  {
    var a, b, c, d := "    " + s, "   " + s, "  " + s, " " + s;
    assert a[1..] == b && b[1..] == c && c[1..] == d && d[1..] == s;
    assert TrimStart(a) == TrimStart(b);
    assert TrimStart(b) == TrimStart(c);
    assert TrimStart(c) == TrimStart(d);
  }

  /** What the formatter keeps of a line is what it keeps of the line it wrote. */
  lemma ContentAgain(raw: string, ends: bool, depth: int)
    ensures Content(Laid(Content(raw, ends), depth), ends) == Content(raw, ends)
  {
    TrimmedIsBare(raw, ends);
    var content := Content(raw, ends);
    var levels := LaidIsIndented(content, depth);
    TrimIndent(levels, content);
  }

  /** The scan of a re-laid line ends where the scan of the line did. */
  lemma LaidScan(raw: string, ends: bool, depth: int)
    requires !ScanLine(Normal, depth, raw).spliced
    ensures var a := ScanLine(Normal, depth, Laid(Content(raw, ends), depth));
            var b := ScanLine(Normal, depth, raw);
            SameEnd(a, b) && (ends ==> a == b)
  {
    var content := Content(raw, ends);
    TrimStartScan(depth, raw);
    if !ends { TrimEndScan(depth, TrimStart(raw)); }
    var levels := LaidIsIndented(content, depth);
    IndentIsInert(levels);
    ScanPastInert(depth, Indent(levels), content);
  }

  // ------------------------------------------------------------------ a file laid twice

  /** The lines put out for the rest of a file, read again from the same state: they
      come back, except for `lost`. */
  ghost predicate Stable(st: St, depth: int, out: seq<string>, seen: bool, lost: seq<string>) {
    Unspliced(st, depth, out) && Collapse(BuildFrom(st, depth, out), false, seen) + lost == out
  }

  lemma BlankHead(depth: int, rest: seq<string>)
    ensures BuildFrom(Normal, depth, [""] + rest) == [Built("", false)] + BuildFrom(Normal, depth, rest)
    ensures Unspliced(Normal, depth, [""] + rest) == Unspliced(Normal, depth, rest)
  {
    assert ([""] + rest)[1..] == rest && ([""] + rest)[0] == "";
    assert ScanLine(Normal, depth, "") == Carry(Normal, depth, false);
    assert Content("", true) == "" && Content("", false) == "";
  }

  lemma PendingBlank(bs: seq<Built>)
    requires |bs| > 0 && !IsBlank(bs[0])
    ensures Collapse([Built("", false)] + bs, false, true) == [""] + Collapse(bs, false, true)
  {
    CollapseText(bs, false, true);
    CollapseText(bs, true, true);
    Glue([], [bs[0].text], Collapse(bs[1..], false, true));
    assert ([Built("", false)] + bs)[1..] == bs;
    assert Collapse([Built("", false)] + bs, false, true) == Collapse(bs, true, true);
    Glue([""], [bs[0].text], Collapse(bs[1..], false, true));
  }

  lemma Glue(a: seq<string>, b: seq<string>, c: seq<string>)
    ensures a + b + c == a + (b + c)
    ensures [] + b == b
  {
  }

  /** A squeezed run of blanks stays one blank. */
  lemma StableBlank(depth: int, rest: seq<string>, lost: seq<string>)
    requires |rest| > 0 && !IsBlank(BuiltHead(Normal, depth, rest))
    requires Stable(Normal, depth, rest, true, lost)
    ensures Stable(Normal, depth, [""] + rest, true, lost)
  {
    BlankHead(depth, rest);
    BuildStep(Normal, depth, rest);
    PendingBlank(BuildFrom(Normal, depth, rest));
    Glue([""], Collapse(BuildFrom(Normal, depth, rest), false, true), lost);
  }

  /** A line of text in front. */
  lemma StableText(st: St, depth: int, text: string, c: Carry, rest: seq<string>, verbatim: bool, seen: bool,
      lost: seq<string>)
    requires ScanLine(st, depth, text) == c && !c.spliced && Stable(c.st, c.depth, rest, true, lost)
    requires |rest| > 0 && BuiltHead(st, depth, [text] + rest) == Built(text, verbatim) && (verbatim || text != "")
    ensures Stable(st, depth, [text] + rest, seen, lost)
  {
    var all := [text] + rest;
    assert all[1..] == rest && all[0] == text;
    var bs := BuildFrom(c.st, c.depth, rest);
    assert BuildFrom(st, depth, all) == [Built(text, verbatim)] + bs;
    assert ([Built(text, verbatim)] + bs)[1..] == bs;
    CollapseText([Built(text, verbatim)] + bs, false, seen);
    assert [] + [text] + Collapse(bs, false, true) + lost == [text] + (Collapse(bs, false, true) + lost);
  }

  /** Trimming the last line would cut the character off a trailing escape. */
  predicate CutsEscape(st: St, depth: int, lines: seq<string>)
    decreases |lines|
  {
    if |lines| == 0 then false
    else if |lines| == 1 then st == Normal && ScanLine(st, depth, Trim(lines[0])).spliced
    else CutsEscape(ScanLine(st, depth, lines[0]).st, ScanLine(st, depth, lines[0]).depth, lines[1..])
  }

  /** A line of text is built the same way when it is read again. */
  lemma HeadAgain(st: St, depth: int, lines: seq<string>, rest: seq<string>)
    requires |lines| > 0 && |rest| > 0
    requires !ScanLine(st, depth, lines[0]).spliced
    requires |lines| == 1 ==> ScanLine(st, depth, lines[0]).st == Normal || !CutsEscape(st, depth, lines)
    ensures var head := BuiltHead(st, depth, lines);
            ScanLine(st, depth, head.text) == ScanLine(st, depth, lines[0])
    ensures (|lines| == 1 ==> ScanLine(st, depth, lines[0]).st == Normal) ==>
              BuiltHead(st, depth, [BuiltHead(st, depth, lines).text] + rest) == BuiltHead(st, depth, lines)
  {
    var raw := lines[0];
    var c := ScanLine(st, depth, raw);
    var head := BuiltHead(st, depth, lines);
    assert ([head.text] + rest)[0] == head.text;
    if st == Normal {
      var ends := |lines| > 1 && c.st != Normal;
      LaidScan(raw, ends, depth);
      if |lines| == 1 { TrimmedScan(depth, raw); }
      ContentAgain(raw, ends, depth);
    }
  }

  lemma TrimmedScan(depth: int, raw: string)
    ensures ScanLine(Normal, depth, Laid(Trim(raw), depth)) == ScanLine(Normal, depth, Trim(raw))
  {
    var levels := LaidIsIndented(Trim(raw), depth);
    IndentIsInert(levels);
    ScanPastInert(depth, Indent(levels), Trim(raw));
  }

  /** What the re-read loses: the empty last line, unless it is inside a comment or a
      literal left open. */
  function Lost(end: St): seq<string> {
    if end == Normal then [""] else []
  }

  /** Nothing follows the last line but the empty line that ends the file. */
  lemma LastAgain(st: St, depth: int, seen: bool)
    ensures Stable(st, depth, [""], seen, Lost(st))
  {
    assert [""][1..] == [];
    var head := BuiltHead(st, depth, [""]);
    assert Content("", false) == "";
    assert BuildFrom(st, depth, [""]) == [head] + [];
    assert [head][1..] == [];
    assert Collapse([head], false, seen) == if st == Normal then [] else [""];
  }

  /** An open last line is trimmed once; the second time it is left as it is. */
  lemma OpenLine(st: St, depth: int, raw: string, seen: bool)
    requires var c := ScanLine(st, depth, raw); !c.spliced && c.st != Normal
    requires !CutsEscape(st, depth, [raw])
    ensures var head := BuiltHead(st, depth, [raw]);
            && !IsBlank(head) && !IsBlank(BuiltHead(st, depth, [head.text] + [""]))
            && Stable(st, depth, [head.text] + [""], seen, [])
  {
    var head := BuiltHead(st, depth, [raw]);
    var c := ScanLine(st, depth, raw);
    HeadAgain(st, depth, [raw], [""]);
    LastAgain(c.st, c.depth, true);
    if st == Normal {
      TrimmedIsBare(raw, false);
      var content := Trim(raw);
      var levels := LaidIsIndented(content, depth);
      TrimIndent(levels, content);
      assert head.text != "";
    }
    assert ([head.text] + [""])[0] == head.text;
    StableText(st, depth, head.text, c, [""], st != Normal, seen, []);
  }

  ghost predicate Readable(st: St, depth: int, lines: seq<string>) {
    Unspliced(st, depth, lines) && (EndState(st, depth, lines) == Normal || !CutsEscape(st, depth, lines))
  }

  lemma {:induction false} Again(st: St, depth: int, lines: seq<string>, pending: bool, seen: bool)
    requires Readable(st, depth, lines) && (pending ==> st == Normal && seen)
    ensures Stable(st, depth, Emitted(st, depth, lines, pending, seen), seen, Lost(EndState(st, depth, lines)))
    decreases |lines|, 1
  {
    if |lines| == 0 {
      LastAgain(st, depth, seen);
      assert Emitted(st, depth, lines, pending, seen) == [""];
    } else if IsBlank(BuiltHead(st, depth, lines)) {
      BlankScan(st, depth, lines);
      BuildStep(st, depth, lines);
      Again(Normal, depth, lines[1..], pending || seen, seen);
    } else {
      AgainText(st, depth, lines, seen);
      EmittedShape(st, depth, lines, pending, seen);
      EmittedShape(st, depth, lines, false, seen);
      if pending {
        StableBlank(depth, Emitted(st, depth, lines, false, seen), Lost(EndState(st, depth, lines)));
      }
    }
  }

  lemma BlankScan(st: St, depth: int, lines: seq<string>)
    requires |lines| > 0 && Readable(st, depth, lines) && IsBlank(BuiltHead(st, depth, lines))
    ensures ScanLine(st, depth, lines[0]) == Carry(Normal, depth, false)
    ensures Readable(Normal, depth, lines[1..])
  {
    if |lines| == 1 { assert lines[1..] == []; }
    HeadAgain(st, depth, lines, [""]);
    assert ScanLine(st, depth, "") == Carry(Normal, depth, false);
  }

  lemma {:induction false} AgainText(st: St, depth: int, lines: seq<string>, seen: bool)
    requires |lines| > 0 && Readable(st, depth, lines) && !IsBlank(BuiltHead(st, depth, lines))
    ensures var out := Emitted(st, depth, lines, false, seen);
            && |out| > 0 && !IsBlank(BuiltHead(st, depth, out))
            && Stable(st, depth, out, seen, Lost(EndState(st, depth, lines)))
    decreases |lines|, 0
  {
    var c := ScanLine(st, depth, lines[0]);
    var head := BuiltHead(st, depth, lines);
    var rest := Emitted(c.st, c.depth, lines[1..], false, true);
    EmittedShape(st, depth, lines, false, seen);
    if |lines| == 1 && c.st != Normal {
      assert lines[1..] == [] && lines == [lines[0]] && rest == [""];
      assert EndState(st, depth, lines) == c.st;
      OpenLine(st, depth, lines[0], seen);
    } else {
      if |lines| == 1 { assert lines[1..] == []; }
      HeadAgain(st, depth, lines, rest);
      Again(c.st, c.depth, lines[1..], false, true);
      StableText(st, depth, head.text, c, rest, head.verbatim, seen, Lost(EndState(st, depth, lines)));
    }
  }

  /** No line of the source ends in a backslash inside a literal. */
  predicate LineByLine(src: string) {
    Unspliced(Normal, 0, Split(src))
  }

  /** The scan of the source ends in code. */
  predicate Closed(src: string) {
    EndState(Normal, 0, Split(src)) == Normal
  }

  lemma FormatIdempotent(src: string)
    requires LineByLine(src) && Closed(src)
    ensures Format(Format(src)) == Format(src)
  {
    FormatTwice(src);
  }

  /** On a source left open, each round of formatting adds a line: formatting is
      idempotent exactly on the closed sources. */
  lemma IdempotentExactlyWhenClosed(src: string)
    requires LineByLine(src) && !CutsEscape(Normal, 0, Split(src))
    ensures Format(Format(src)) == Format(src) <==> Closed(src)
    ensures !Closed(src) ==> Format(Format(src)) == Format(src) + "\n"
  {
    FormatTwice(src);
  }

  lemma FormatTwice(src: string)
    requires LineByLine(src) && (Closed(src) || !CutsEscape(Normal, 0, Split(src)))
    ensures Closed(src) ==> Format(Format(src)) == Format(src)
    ensures !Closed(src) ==> Format(Format(src)) == Format(src) + "\n"
  {
    var lines := Split(src);
    SplitLines(src);
    FormatIsOutLines(lines);
    Again(Normal, 0, lines, false, false);
    OutOneLine(Normal, 0, lines, false, false);
    var out := OutLines(lines);
    assert Emitted(Normal, 0, lines, false, false) == out + [""];
    if Closed(src) { LaidTwice(out); } else { LaidOpen(out); }
  }

  lemma SameFront(a: seq<string>, b: seq<string>)
    requires a + [""] == b + [""]
    ensures a == b
  {
    assert a == (a + [""])[..|a|] && b == (b + [""])[..|b|];
  }

  /** Output lines that are stable are a fixpoint of the formatter. */
  lemma LaidTwice(out: seq<string>)
    requires Stable(Normal, 0, out + [""], false, [""]) && forall l | l in out + [""] :: OneLine(l)
    ensures Format(Terminated(out)) == Terminated(out)
  {
    if Join(out) == "" {
      BlankHead(0, []);
      assert [""] + [] == [""] && Join([""]) == "";
      FormatIsOutLines([""]);
      assert [Built("", false)] + [] == [Built("", false)];
      assert OutLines([""]) == [];
    } else {
      JoinEmptyLast(out);
      FormatIsOutLines(out + [""]);
      SameFront(OutLines(out + [""]), out);
    }
  }

  lemma OpenIsText(out: seq<string>)
    requires Stable(Normal, 0, out + [""], false, [])
    ensures |out| > 0 && Join(out) != ""
  {
    BlankHead(0, []);
    BlankHead(0, [""]);
    assert [""] + [] == [""] && [""] + [""] == ["", ""] && [] + [""] == [""];
    assert [Built("", false)] + [] == [Built("", false)];
    assert BuildFrom(Normal, 0, ["", ""]) == [Built("", false)] + [Built("", false)];
    assert ([Built("", false)] + [Built("", false)])[1..] == [Built("", false)];
    assert Collapse([Built("", false)], false, false) == [];
    assert !Stable(Normal, 0, [""], false, []);
    assert !Stable(Normal, 0, ["", ""], false, []);
    assert |out| == 1 && out[0] == "" ==> out == [""];
  }

  lemma LaidOpen(out: seq<string>)
    requires Stable(Normal, 0, out + [""], false, []) && forall l | l in out + [""] :: OneLine(l)
    ensures Format(Terminated(out)) == Terminated(out) + "\n"
  {
    OpenIsText(out);
    JoinEmptyLast(out);
    FormatIsOutLines(out + [""]);
    assert OutLines(out + [""]) + [] == OutLines(out + [""]);
  }

  // ---------------------------------------------------------------- programs that lex

  /** A source that lexes ends in code. */
  lemma {:induction false} LexedEndsInCode(m: Mode, depth: int, lines: seq<string>)
    requires Follows(m, lines)
    ensures EndState(Shadow(m), depth, lines) == Normal
    decreases |lines|
  {
    NextFollows(m, depth, lines);
    var c := ScanLine(Shadow(m), depth, lines[0]);
    if |lines| > 1 {
      LexedEndsInCode(AfterNewline(Line(m, lines[0]).mode), c.depth, lines[1..]);
    } else {
      assert lines[1..] == [];
    }
  }

  /** Hence formatting is idempotent on every source that lexes and has no
      three-quote character literal. */
  lemma FormatIdempotentOnPrograms(src: string)
    requires Tokens(src).Good? && QuotesEscaped(src)
    ensures Format(Format(src)) == Format(src)
  {
    var lines := Split(src);
    SourceFollows(src);
    LexedIsUnspliced(Between, 0, lines);
    LexedEndsInCode(Between, 0, lines);
    FormatIdempotent(src);
  }
}
