/** The formatter seen line by line: what the scanner carries from one line to the
    next, and the lines it therefore builds. */
module FmtLines {
  import opened LexSpec
  import opened LexLines
  import opened FmtSpec

  datatype Carry = Carry(st: St, depth: int, spliced: bool)

  /** Scanning one line.  `spliced`: a backslash inside a literal swallows the
      newline, so the scanner misses the line boundary. */
  function ScanLine(st: St, depth: int, s: string): Carry
    decreases |s|
  {
    if |s| == 0 then Carry(st, depth, false)
    else match st
      case Normal =>
        if s[0] == '/' && Peek(s, 1) == '/' then Carry(Normal, depth, false)
        else if s[0] == '/' && Peek(s, 1) == '*' then ScanLine(Block(1), depth, From(s, 2))
        else if s[0] == '"' then ScanLine(Str, depth, s[1..])
        else if s[0] == '\'' then ScanLine(Chr, depth, s[1..])
        else ScanLine(Normal, if Opens(s[0]) then depth + 1 else if Closes(s[0]) then depth - 1 else depth, s[1..])
      case Block(d) =>
        if s[0] == '/' && Peek(s, 1) == '*' then ScanLine(Block(d + 1), depth, From(s, 2))
        else if s[0] == '*' && Peek(s, 1) == '/' then
          ScanLine(if d <= 1 then Normal else Block(d - 1), depth, From(s, 2))
        else ScanLine(st, depth, s[1..])
      case Str =>
        if s[0] == '\\' then (if |s| == 1 then Carry(Str, depth, true) else ScanLine(Str, depth, s[2..]))
        else ScanLine(if s[0] == '"' then Normal else Str, depth, s[1..])
      case Chr =>
        if s[0] == '\\' then (if |s| == 1 then Carry(Chr, depth, true) else ScanLine(Chr, depth, s[2..]))
        else ScanLine(if s[0] == '\'' then Normal else Chr, depth, s[1..])
  }

  lemma CutAt(s: string, q: string, n: nat)
    requires n <= |s|
    ensures From(s + q, n) == From(s, n) + q
  {
  }

  /** The scanner reaches the end of a line with the carry of that line. */
  ghost predicate Resumes(st: St, depth: int, s: string, q: string) {
    var c := ScanLine(st, depth, s);
    ScanRest(st, depth, s + q) == ScanRest(c.st, c.depth, q)
  }

  lemma Unfold(s: string, q: string)
    requires OneLine(s) && EndOrNewline(q) && |s| > 0
    ensures (s + q)[0] == s[0] && s[0] != '\n' && (s + q)[1..] == s[1..] + q && OneLine(s[1..])
    ensures Peek(s + q, 1) == '/' <==> Peek(s, 1) == '/'
    ensures Peek(s + q, 1) == '*' <==> Peek(s, 1) == '*'
    ensures |s| >= 2 ==> From(s + q, 2) == s[2..] + q && OneLine(s[2..])
  {
    assert s[0] in s;
    assert forall c | c in s[1..] :: c in s;
    CutAt(s, q, 1);
    if |s| >= 2 {
      CutAt(s, q, 2);
      assert forall c | c in s[2..] :: c in s;
    }
  }

  lemma {:induction false} ScanLineResumes(st: St, depth: int, s: string, q: string)
    requires OneLine(s) && EndOrNewline(q) && !ScanLine(st, depth, s).spliced
    ensures Resumes(st, depth, s, q)
    decreases |s|, 1
  {
    if |s| == 0 {
      assert s + q == q;
    } else {
      match st
      case Normal => NormalResumes(depth, s, q);
      case Block(d) => BlockResumes(d, depth, s, q);
      case Str => LiteralResumes(Str, '"', depth, s, q);
      case Chr => LiteralResumes(Chr, '\'', depth, s, q);
    }
  }

  lemma {:induction false} NormalResumes(depth: int, s: string, q: string)
    requires |s| > 0 && OneLine(s) && EndOrNewline(q) && !ScanLine(Normal, depth, s).spliced
    ensures Resumes(Normal, depth, s, q)
    decreases |s|, 0
  {
    Unfold(s, q);
    if s[0] == '/' && Peek(s, 1) == '/' {
      CommentRest(s, q);
    } else if s[0] == '/' && Peek(s, 1) == '*' {
      ScanLineResumes(Block(1), depth, s[2..], q);
    } else if s[0] == '"' {
      ScanLineResumes(Str, depth, s[1..], q);
    } else if s[0] == '\'' {
      ScanLineResumes(Chr, depth, s[1..], q);
    } else {
      ScanLineResumes(Normal, if Opens(s[0]) then depth + 1 else if Closes(s[0]) then depth - 1 else depth, s[1..], q);
    }
  }

  lemma {:induction false} BlockResumes(d: nat, depth: int, s: string, q: string)
    requires |s| > 0 && OneLine(s) && EndOrNewline(q) && !ScanLine(Block(d), depth, s).spliced
    ensures Resumes(Block(d), depth, s, q)
    decreases |s|, 0
  {
    Unfold(s, q);
    if s[0] == '/' && Peek(s, 1) == '*' {
      ScanLineResumes(Block(d + 1), depth, s[2..], q);
    } else if s[0] == '*' && Peek(s, 1) == '/' {
      ScanLineResumes(if d <= 1 then Normal else Block(d - 1), depth, s[2..], q);
    } else {
      ScanLineResumes(Block(d), depth, s[1..], q);
    }
  }

  lemma {:induction false} LiteralResumes(st: St, end: char, depth: int, s: string, q: string)
    requires (st == Str && end == '"') || (st == Chr && end == '\'')
    requires |s| > 0 && OneLine(s) && EndOrNewline(q) && !ScanLine(st, depth, s).spliced
    ensures Resumes(st, depth, s, q)
    decreases |s|, 0
  {
    Unfold(s, q);
    if s[0] == '\\' {
      ScanLineResumes(st, depth, s[2..], q);
    } else {
      ScanLineResumes(if s[0] == end then Normal else st, depth, s[1..], q);
    }
  }

  lemma CommentRest(s: string, q: string)
    requires OneLine(s) && EndOrNewline(q) && |s| >= 2
    ensures From(s + q, 2 + Span(From(s + q, 2), NotNewline)) == q
  {
    CutAt(s, q, 2);
    assert forall c | c in s[2..] :: c in s;
    SpanToLineEnd(s[2..], q);
    CutAt(s, q, |s|);
  }

  /** No line of the file ends in a backslash inside a literal, given the state the
      file is entered in. */
  predicate Unspliced(st: St, depth: int, lines: seq<string>)
    decreases |lines|
  {
    |lines| == 0 ||
    var c := ScanLine(st, depth, lines[0]);
    !c.spliced && Unspliced(c.st, c.depth, lines[1..])
  }

  /** The records the scanner makes for the lines that follow the first. */
  function Infos(st: St, depth: int, lines: seq<string>): seq<LineInfo>
    decreases |lines|
  {
    if |lines| <= 1 then []
    else
      var c := ScanLine(st, depth, lines[0]);
      [LineInfo(c.depth, c.st != Normal)] + Infos(c.st, c.depth, lines[1..])
  }

  lemma {:induction false} ScanIsInfos(st: St, depth: int, lines: seq<string>)
    requires |lines| > 0 && Unspliced(st, depth, lines) && forall l | l in lines :: OneLine(l)
    ensures ScanRest(st, depth, Join(lines)) == Infos(st, depth, lines)
    decreases |lines|
  {
    assert lines[0] in lines;
    var c := ScanLine(st, depth, lines[0]);
    if |lines| == 1 {
      ScanLineResumes(st, depth, lines[0], "");
      assert lines[0] + "" == lines[0];
    } else {
      assert forall l | l in lines[1..] :: l in lines;
      ScanIsInfos(c.st, c.depth, lines[1..]);
      var q := "\n" + Join(lines[1..]);
      assert Join(lines) == lines[0] + q;
      ScanLineResumes(st, depth, lines[0], q);
      assert q[0] == '\n' && q[1..] == Join(lines[1..]);
    }
  }

  /** The line built for the first of `lines`, in a file whose scan stands at `st`. */
  function BuiltHead(st: St, depth: int, lines: seq<string>): Built
    requires |lines| > 0
  {
    if st != Normal then Built(lines[0], true)
    else
      var ends := |lines| > 1 && ScanLine(st, depth, lines[0]).st != Normal;
      Built(Laid(Content(lines[0], ends), depth), false)
  }

  function BuildFrom(st: St, depth: int, lines: seq<string>): seq<Built>
    decreases |lines|
  {
    if |lines| == 0 then []
    else
      var c := ScanLine(st, depth, lines[0]);
      [BuiltHead(st, depth, lines)] + BuildFrom(c.st, c.depth, lines[1..])
  }

  lemma {:induction false} BuildIsBuildFrom(infos: seq<LineInfo>, i: nat, st: St, depth: int, lines: seq<string>)
    requires i + |lines| == |infos| && |lines| > 0
    requires infos[i] == LineInfo(depth, st != Normal)
    requires infos[i + 1..] == Infos(st, depth, lines)
    ensures Build(infos, i, lines) == BuildFrom(st, depth, lines)
    decreases |lines|
  {
    var c := ScanLine(st, depth, lines[0]);
    if |lines| > 1 {
      assert infos[i + 1] == infos[i + 1..][0];
      assert infos[i + 2..] == infos[i + 1..][1..];
      BuildIsBuildFrom(infos, i + 1, c.st, c.depth, lines[1..]);
    } else {
      assert lines[1..] == [];
    }
  }

  lemma {:induction false} InfosLength(st: St, depth: int, lines: seq<string>)
    requires |lines| > 0
    ensures |Infos(st, depth, lines)| == |lines| - 1
    decreases |lines|
  {
    if |lines| > 1 {
      var c := ScanLine(st, depth, lines[0]);
      InfosLength(c.st, c.depth, lines[1..]);
    }
  }

  /** The output lines of a file given as its lines. */
  function OutLines(lines: seq<string>): seq<string> {
    Collapse(BuildFrom(Normal, 0, lines), false, false)
  }

  /** On a file without spliced lines, the formatter works line by line. */
  lemma FormatIsOutLines(lines: seq<string>)
    requires |lines| > 0 && Unspliced(Normal, 0, lines) && forall l | l in lines :: OneLine(l)
    ensures Format(Join(lines)) == Terminated(OutLines(lines))
  {
    SplitOfJoin(lines);
    ScanIsInfos(Normal, 0, lines);
    InfosLength(Normal, 0, lines);
    var infos := Scan(Join(lines));
    assert infos[0 + 1..] == Infos(Normal, 0, lines);
    BuildIsBuildFrom(infos, 0, Normal, 0, lines);
  }

  // ---------------------------------------------------------------------- shapes

  lemma {:induction false} IndentIsBlank(n: nat)
    ensures forall c | c in Indent(n) :: c == ' '
    decreases n
  {
    if n > 0 { IndentIsBlank(n - 1); }
  }

  lemma {:induction false} TrimStartIs(s: string)
    ensures |TrimStart(s)| <= |s| && TrimStart(s) == s[|s| - |TrimStart(s)|..]
    ensures BlankLen(TrimStart(s)) == 0
    decreases |s|
  {
    if BlankLen(s) > 0 { TrimStartIs(s[BlankLen(s)..]); }
  }

  predicate IsPrefix(p: string, s: string) {
    |p| <= |s| && p == s[..|p|]
  }

  lemma PrefixTransitive(a: string, b: string, c: string)
    requires IsPrefix(a, b) && IsPrefix(b, c)
    ensures IsPrefix(a, c)
  {
  }

  lemma {:induction false} TrimEndIsPrefix(s: string)
    ensures IsPrefix(TrimEnd(s), s)
    decreases |s|
  {
    var n := BlankLenAtEnd(s);
    if n > 0 {
      var t := s[..|s| - n];
      TrimEndIsPrefix(t);
      assert IsPrefix(t, s);
      PrefixTransitive(TrimEnd(t), t, s);
    }
  }

  lemma {:induction false} TrimEndEndsBare(s: string)
    ensures BlankLenAtEnd(TrimEnd(s)) == 0
    decreases |s|
  {
    if BlankLenAtEnd(s) > 0 { TrimEndEndsBare(s[..|s| - BlankLenAtEnd(s)]); }
  }
}
