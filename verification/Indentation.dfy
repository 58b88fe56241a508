/** Where the formatter puts each line, in terms of the lexer's tokens: four spaces for every
    bracket token open in front of the line, less its leading closing ones, and then the
    trimmed line; and at most one blank line between two others. */
module Indentation {
  import opened LexSpec
  import opened LexLines
  import opened FmtSpec
  import opened FmtLines
  import opened TokenPreservation

  // ----------------------------------------------------------------- bracket depth

  lemma {:induction false} BalanceSplits(a: seq<Tok>, b: seq<Tok>)
    ensures Balance(a + b) == Balance(a) + Balance(b)
    decreases |a|
  {
    if |a| == 0 {
      assert a + b == b;
    } else {
      assert (a + b)[1..] == a[1..] + b;
      BalanceSplits(a[1..], b);
    }
  }

  /** Reading the lines in front of line `i` leaves the lexer between tokens in the mode
      `at`, and the scanner at the depth of the brackets among their tokens. */
  ghost predicate Arrives(m: Mode, depth: int, lines: seq<string>, i: nat, at: Mode, deep: int)
    requires i <= |lines|
  {
    if i == 0 then at == m && deep == depth
    else
      && (Lines(m, lines[..i]).Good? <==> at == Between)
      && (at == Between ==> deep == depth + Balance(Lines(m, lines[..i]).toks))
  }

  lemma ArrivesLater(m: Mode, depth: int, lines: seq<string>, i: nat, at: Mode, deep: int)
    requires 0 < i < |lines| && Line(m, lines[0]).Out?
    requires var next := Line(m, lines[0]);
             Arrives(AfterNewline(next.mode), depth + Balance(next.toks), lines[1..], i - 1, at, deep)
    ensures Arrives(m, depth, lines, i, at, deep)
  {
    var end := Line(m, lines[0]);
    assert lines[..i][0] == lines[0] && lines[..i][1..] == lines[1..][..i - 1];
    if i == 1 {
      BalanceSplits(end.toks, [Eof]);
      assert Balance([Eof]) == 0;
    } else if at == Between {
      BalanceSplits(end.toks, Lines(AfterNewline(end.mode), lines[1..][..i - 1]).toks);
    }
  }

  /** The line built for line `i`, and the record the scanner has of it. */
  lemma {:induction false} LineReached(m: Mode, depth: int, lines: seq<string>, i: nat) returns (at: Mode, deep: int)
    requires Follows(m, lines) && i < |lines|
    ensures Follows(at, lines[i..]) && Arrives(m, depth, lines, i, at, deep)
    ensures var built := BuildFrom(Shadow(m), depth, lines);
            |built| == |lines| && built[i] == BuiltHead(Shadow(at), deep, lines[i..])
    ensures var infos := [LineInfo(depth, Shadow(m) != Normal)] + Infos(Shadow(m), depth, lines);
            |infos| == |lines| && infos[i] == LineInfo(deep, Shadow(at) != Normal) &&
            var c := ScanLine(Shadow(at), deep, lines[i]);
            i + 1 < |lines| ==> infos[i + 1] == LineInfo(c.depth, c.st != Normal)
    decreases i
  {
    hide Line, Lines, Balance, ScanLine, BuiltHead;
    var c := ScanLine(Shadow(m), depth, lines[0]);
    BuildStep(Shadow(m), depth, lines);
    BuildLength(Shadow(m), depth, lines);
    InfosLength(Shadow(m), depth, lines);
    if i == 0 {
      at, deep := m, depth;
      assert lines[0..] == lines;
    } else {
      NextFollows(m, depth, lines);
      assert lines[0] in lines;
      ScanShadows(m, depth, lines[0]);
      var next := AfterNewline(Line(m, lines[0]).mode);
      at, deep := LineReached(next, c.depth, lines[1..], i - 1);
      assert lines[1..][i - 1..] == lines[i..];
      ArrivesLater(m, depth, lines, i, at, deep);
      var infos := [LineInfo(depth, Shadow(m) != Normal)] + Infos(Shadow(m), depth, lines);
      assert infos[1..] == [LineInfo(c.depth, c.st != Normal)] + Infos(c.st, c.depth, lines[1..]);
      assert infos[i] == infos[1..][i - 1];
      assert i + 1 < |lines| ==> infos[i + 1] == infos[1..][i];
      assert BuildFrom(Shadow(m), depth, lines)[i] == BuildFrom(Shadow(m), depth, lines)[1..][i - 1];
    }
  }

  lemma {:induction false} BuildLength(st: St, depth: int, lines: seq<string>)
    ensures |BuildFrom(st, depth, lines)| == |lines|
    decreases |lines|
  {
    if |lines| > 0 {
      var c := ScanLine(st, depth, lines[0]);
      BuildLength(c.st, c.depth, lines[1..]);
    }
  }

  /** What the lexer makes of the lines in front of line `i`; Bad when the line starts inside
      a comment or a string. */
  function Above(src: string, i: nat): Lexed {
    if i <= |Split(src)| then Tokens(Join(Split(src)[..i])) else Bad
  }

  lemma AboveIsLines(src: string, i: nat)
    requires 0 < i <= |Split(src)|
    ensures Above(src, i) == Lines(Between, Split(src)[..i])
  {
    SplitLines(src);
    var lines := Split(src)[..i];
    assert forall l | l in lines :: l in Split(src);
    LexIsLines(Between, lines);
  }

  lemma AboveFirst(src: string)
    ensures Above(src, 0) == Good([Eof]) && Balance([Eof]) == 0
  {
    assert Split(src)[..0] == [];
  }

  lemma ArrivesAbove(src: string, i: nat, at: Mode, deep: int)
    requires i <= |Split(src)| && Arrives(Between, 0, Split(src), i, at, deep)
    ensures Above(src, i).Good? <==> at == Between
    ensures at == Between ==> deep == Balance(Above(src, i).toks)
  {
    if i == 0 { AboveFirst(src); } else { AboveIsLines(src, i); }
  }

  /** The scanner has one record for each line.  It says whether the line starts in code, and
      if so how many more opening than closing bracket tokens stand in front of it. */
  lemma DepthIsBalance(src: string, i: nat)
    requires Tokens(src).Good? && QuotesEscaped(src) && i < |Split(src)|
    ensures |Scan(src)| == |Split(src)|
    ensures Scan(src)[i].verbatim <==> Above(src, i).Bad?
    ensures Above(src, i).Good? ==> Scan(src)[i].depth == Balance(Above(src, i).toks)
  {
    var lines := Split(src);
    SplitLines(src);
    SourceFollows(src);
    LexIsLines(Between, lines);
    LexedIsUnspliced(Between, 0, lines);
    ScanIsInfos(Normal, 0, lines);
    var at, deep := LineReached(Between, 0, lines, i);
    ArrivesAbove(src, i, at, deep);
  }

  // ------------------------------------------------------------------- white space

  /** The code points that are white space. */
  predicate IsWhite(code: nat) {
    || 9 <= code <= 13 || code == 32 || code == 0x85 || code == 0xa0 || code == 0x1680
    || 0x2000 <= code <= 0x200a || code == 0x2028 || code == 0x2029 || code == 0x202f || code == 0x205f || code == 0x3000
  }

  /** The bytes of a code point below 0x10000, in UTF-8. */
  function Utf8(code: nat): (bytes: string)
    requires code < 0x10000
    ensures |bytes| > 0
  {
    if code < 0x80 then [code as char]
    else if code < 0x800 then [(0xc0 + code / 64) as char, (0x80 + code % 64) as char]
    else [(0xe0 + code / 4096) as char, (0x80 + code / 64 % 64) as char, (0x80 + code % 64) as char]
  }

  ghost predicate StartsWhite(s: string) {
    exists code :: IsWhite(code) && Utf8(code) <= s
  }

  ghost predicate EndsWhite(s: string) {
    exists code :: IsWhite(code) && |Utf8(code)| <= |s| && s[|s| - |Utf8(code)|..] == Utf8(code)
  }

  predicate WhiteCodes(codes: seq<nat>) {
    forall k | 0 <= k < |codes| :: IsWhite(codes[k])
  }

  function Text(codes: seq<nat>): string
    requires WhiteCodes(codes)
  {
    if |codes| == 0 then "" else Utf8(codes[0]) + Text(codes[1..])
  }

  /** Nothing but white space. */
  ghost predicate AllWhite(s: string) {
    exists codes :: WhiteCodes(codes) && s == Text(codes)
  }

  lemma WhiteIsBlank(s: string, code: nat)
    requires IsWhite(code) && Utf8(code) <= s
    ensures BlankLen(s) == |Utf8(code)|
  {
    var u := Utf8(code);
    assert forall k | 0 <= k < |u| :: s[k] == u[k];
  }

  lemma BlankIsWhite(s: string) returns (code: nat)
    requires BlankLen(s) > 0
    ensures IsWhite(code) && Utf8(code) <= s && |Utf8(code)| == BlankLen(s)
  {
    var a, b, c := s[0] as int, Peek(s, 1) as int, Peek(s, 2) as int;
    var n := BlankLen(s);
    code := if n == 1 then a else if n == 2 then (a - 0xc0) * 64 + b - 0x80
            else (a - 0xe0) * 4096 + (b - 0x80) * 64 + c - 0x80;
    assert s[..n] == Utf8(code);
  }

  lemma {:induction false} TextSplits(a: seq<nat>, b: seq<nat>)
    requires WhiteCodes(a) && WhiteCodes(b)
    ensures Text(a + b) == Text(a) + Text(b)
    decreases |a|
  {
    hide Utf8, IsWhite;
    if |a| == 0 {
      assert a + b == b;
    } else {
      assert (a + b)[1..] == a[1..] + b;
      TextSplits(a[1..], b);
    }
  }

  lemma WhiteAppend(a: string, u: string)
    requires AllWhite(a) && AllWhite(u)
    ensures AllWhite(a + u)
  {
    hide Utf8, IsWhite, Text;
    var first :| WhiteCodes(first) && a == Text(first);
    var second :| WhiteCodes(second) && u == Text(second);
    TextSplits(first, second);
    assert WhiteCodes(first + second);
  }

  lemma NoWhite()
    ensures AllWhite("")
  {
    assert WhiteCodes([]) && Text([]) == "";
  }

  lemma BlankUnit(u: string)
    requires |u| > 0 && BlankLen(u) == |u|
    ensures AllWhite(u)
  {
    hide Utf8, BlankLen;
    var code := BlankIsWhite(u);
    assert Utf8(code) == u;
    assert WhiteCodes([code]) && [code][1..] == [] && Text([code]) == u + "";
  }

  lemma BlankFirst(s: string)
    requires BlankLen(s) > 0
    ensures AllWhite(s[..BlankLen(s)])
  {
    hide AllWhite;
    BlankUnit(s[..BlankLen(s)]);
  }

  lemma BareStart(s: string)
    requires BlankLen(s) == 0
    ensures !StartsWhite(s)
  {
    hide Utf8, BlankLen;
    if code :| IsWhite(code) && Utf8(code) <= s {
      WhiteIsBlank(s, code);
      assert false;
    }
  }

  lemma TrimStep(s: string)
    ensures TrimStart(s) == if BlankLen(s) == 0 then s else TrimStart(s[BlankLen(s)..])
  {
  }

  lemma {:induction false} StartTrimmed(s: string) returns (w: string)
    ensures s == w + TrimStart(s) && AllWhite(w) && !StartsWhite(TrimStart(s))
    decreases |s|
  {
    hide Utf8, IsWhite, BlankLen, AllWhite, StartsWhite, TrimStart;
    TrimStep(s);
    var n := BlankLen(s);
    if n == 0 {
      w := "";
      NoWhite();
      BareStart(s);
    } else {
      BlankFirst(s);
      var rest := StartTrimmed(s[n..]);
      WhiteAppend(s[..n], rest);
      w := s[..n] + rest;
      Rejoined(s, n, rest, TrimStart(s));
    }
  }

  lemma Rejoined(s: string, n: nat, a: string, b: string)
    requires n <= |s| && s[n..] == a + b
    ensures s == s[..n] + a + b
  {
  }

  lemma BlankEnd(s: string, code: nat)
    requires IsWhite(code) && |Utf8(code)| <= |s| && s[|s| - |Utf8(code)|..] == Utf8(code)
    ensures BlankLenAtEnd(s) > 0
  {
    WhiteIsBlank(s[|s| - |Utf8(code)|..], code);
  }

  lemma BareEnd(s: string)
    requires BlankLenAtEnd(s) == 0
    ensures !EndsWhite(s)
  {
    hide Utf8, BlankLen, BlankLenAtEnd;
    if code :| IsWhite(code) && |Utf8(code)| <= |s| && s[|s| - |Utf8(code)|..] == Utf8(code) {
      BlankEnd(s, code);
      assert false;
    }
  }

  lemma {:induction false} EndTrimmed(s: string) returns (w: string)
    ensures s == TrimEnd(s) + w && AllWhite(w) && !EndsWhite(TrimEnd(s))
    decreases |s|
  {
    hide Utf8, BlankLen, BlankLenAtEnd, AllWhite, EndsWhite;
    var n := BlankLenAtEnd(s);
    if n == 0 {
      w := "";
      NoWhite();
      BareEnd(s);
    } else {
      var u := s[|s| - n..];
      BlankUnit(u);
      var rest := EndTrimmed(s[..|s| - n]);
      WhiteAppend(rest, u);
      w := rest + u;
      assert s == s[..|s| - n] + u;
    }
  }

  /** `content` is the line without the white space in front of it and, unless the line
      `runs` on into a comment or a string, without that behind it. */
  ghost predicate Trimmed(raw: string, content: string, runs: bool) {
    exists before, after ::
      && raw == before + content + after && AllWhite(before) && AllWhite(after)
      && !StartsWhite(content) && (if runs then after == "" else !EndsWhite(content))
  }

  lemma ContentIsTrimmed(raw: string, runs: bool)
    ensures Trimmed(raw, Content(raw, runs), runs)
  {
    hide Utf8, TrimStart, TrimEnd, AllWhite, StartsWhite, EndsWhite;
    var before := StartTrimmed(raw);
    var inner := TrimStart(raw);
    if runs {
      NoWhite();
      assert raw == before + inner + "";
    } else {
      var after := EndTrimmed(inner);
      assert raw == before + TrimEnd(inner) + after;
      StaysBare(TrimEnd(inner), after);
    }
  }

  lemma StaysBare(s: string, w: string)
    requires !StartsWhite(s + w)
    ensures !StartsWhite(s)
  {
    hide Utf8;
    forall code | IsWhite(code) && Utf8(code) <= s ensures Utf8(code) <= s + w {}
  }

  // ------------------------------------------------------------------- the layout

  /** The lexer reads a closing bracket token at the start of `s`. */
  predicate AtCloser(s: string) {
    |s| > 0 && Code(s).Token? && Level(Code(s).tok) == -1
  }

  /** The line starts with exactly `k` closing bracket tokens, with nothing between them. */
  predicate LeadsWith(content: string, k: nat) {
    && k <= |content| && !AtCloser(content[k..])
    && forall j | 0 <= j < k :: AtCloser(content[j..])
  }

  lemma CloserByte(s: string)
    requires |s| > 0
    ensures AtCloser(s) <==> Closes(s[0])
  {
    if Code(s).Token? { BracketToken(s); }
  }

  lemma {:induction false} LeadsWithClosers(s: string)
    ensures LeadsWith(s, LeadClosers(s))
    decreases |s|
  {
    var k := LeadClosers(s);
    if |s| > 0 { CloserByte(s); }
    if k > 0 {
      LeadsWithClosers(s[1..]);
      assert s[1..][k - 1..] == s[k..];
      forall j | 0 <= j < k ensures AtCloser(s[j..]) {
        if j == 0 { assert s[0..] == s; } else { assert s[1..][j - 1..] == s[j..]; }
      }
    } else {
      assert s[0..] == s;
    }
  }

  function Spaces(n: nat): string {
    seq(n, _ => ' ')
  }

  lemma {:induction false} IndentIsSpaces(levels: nat)
    ensures Indent(levels) == Spaces(4 * levels)
    decreases levels
  {
    if levels > 0 {
      IndentIsSpaces(levels - 1);
      assert Spaces(4 * levels) == "    " + Spaces(4 * (levels - 1));
    } else {
      assert Spaces(4 * levels) == "";
    }
  }

  /** Trimmed, and moved to its depth. */
  ghost predicate Shifted(raw: string, runs: bool, depth: int, text: string) {
    exists content, k ::
      && Trimmed(raw, content, runs) && LeadsWith(content, k)
      && text == if content == "" then "" else Spaces(4 * if depth > k then depth - k else 0) + content
  }

  lemma LaidIsShifted(raw: string, runs: bool, depth: int)
    ensures Shifted(raw, runs, depth, Laid(Content(raw, runs), depth))
  {
    hide Trimmed, LeadsWith;
    var content := Content(raw, runs);
    ContentIsTrimmed(raw, runs);
    LeadsWithClosers(content);
    var k := LeadClosers(content);
    IndentIsSpaces(if depth - k > 0 then depth - k else 0);
    assert LeadsWith(content, k);
  }

  /** A line that starts inside a comment or a string stays; a line of code is shifted to
      the depth of the bracket tokens in front of it. */
  ghost predicate Placed(src: string, i: nat, b: Built)
    requires i < |Split(src)|
  {
    if Above(src, i).Bad? then b == Built(Split(src)[i], true)
    else !b.verbatim && Shifted(Split(src)[i], Above(src, i + 1).Bad?, Balance(Above(src, i).toks), b.text)
  }

  /** Whether a line of code ends in a comment or a string. */
  predicate Runs(deep: int, lines: seq<string>, i: nat)
    requires i < |lines|
  {
    i + 1 < |lines| && ScanLine(Normal, deep, lines[i]).st != Normal
  }

  lemma LineIsPlaced(src: string, i: nat)
    requires Follows(Between, Split(src)) && i < |Split(src)|
    ensures |BuildFrom(Normal, 0, Split(src))| == |Split(src)|
    ensures Placed(src, i, BuildFrom(Normal, 0, Split(src))[i])
  {
    hide Line, Lines, Balance, ScanLine, Split, Join, Laid, Content, Above;
    var lines := Split(src);
    var at, deep := LineReached(Between, 0, lines, i);
    ArrivesAbove(src, i, at, deep);
    assert lines[i..][0] == lines[i] && |lines[i..]| == |lines| - i;
    if at == Between {
      RunsOn(src, i, deep);
      LaidIsShifted(lines[i], Runs(deep, lines, i), deep);
    }
  }

  /** The scanner leaves a line of code in a comment or a string just when the lexer does. */
  lemma RunsOn(src: string, i: nat, deep: int)
    requires Follows(Between, Split(src)) && i < |Split(src)| == |Infos(Normal, 0, Split(src))| + 1
    requires ([LineInfo(0, false)] + Infos(Normal, 0, Split(src)))[i] == LineInfo(deep, false)
    ensures Runs(deep, Split(src), i) <==> Above(src, i + 1).Bad?
  {
    hide Line, Lines, Balance, ScanLine, BuiltHead, BuildFrom, Split, Join;
    var lines := Split(src);
    if i + 1 == |lines| {
      AboveIsLines(src, i + 1);
      assert lines[..i + 1] == lines;
    } else {
      var at, same := LineReached(Between, 0, lines, i);
      var next, later := LineReached(Between, 0, lines, i + 1);
      ArrivesAbove(src, i + 1, next, later);
    }
  }

  // ------------------------------------------------------------------ blank lines

  /** `at` lists, in increasing order, the lines that are kept. */
  predicate Kept(bs: seq<Built>, at: seq<nat>) {
    && (forall j, k | 0 <= j < k < |at| :: at[j] < at[k])
    && (forall j | 0 <= j < |at| :: at[j] < |bs|)
    && (forall i | 0 <= i < |bs| :: i in at <==> bs[i].verbatim || bs[i].text != "")
  }

  /** The kept lines from the `j`-th on, one blank line in front of each that does not
      directly follow the kept line before it. */
  function Spread(bs: seq<Built>, at: seq<nat>, j: nat): seq<string>
    requires Kept(bs, at) && j <= |at|
    decreases |at| - j
  {
    if j == |at| then []
    else (if j > 0 && at[j] > at[j - 1] + 1 then [""] else []) + [bs[at[j]].text] + Spread(bs, at, j + 1)
  }

  lemma NextKept(bs: seq<Built>, at: seq<nat>, i: nat, j: nat)
    requires Kept(bs, at) && i < |bs| && j <= |at| && !IsBlank(bs[i])
    requires (forall k | 0 <= k < j :: at[k] < i) && (forall k | j <= k < |at| :: at[k] >= i)
    ensures j < |at| && at[j] == i && forall k | j < k < |at| :: at[k] > i
  {
    var p :| 0 <= p < |at| && at[p] == i;
    InOrder(bs, at, j, p);
  }

  lemma InOrder(bs: seq<Built>, at: seq<nat>, j: nat, k: nat)
    requires Kept(bs, at) && j <= k < |at|
    ensures at[j] <= at[k]
  {
  }

  lemma BlankSkipped(bs: seq<Built>, at: seq<nat>, i: nat, j: nat)
    requires Kept(bs, at) && i < |bs| && j <= |at| && IsBlank(bs[i])
    requires forall k | j <= k < |at| :: at[k] >= i
    ensures forall k | j <= k < |at| :: at[k] >= i + 1
  {
    assert i !in at;
  }

  lemma InBounds(bs: seq<Built>, at: seq<nat>, j: nat)
    requires Kept(bs, at) && j < |at|
    ensures at[j] < |bs|
  {
  }

  lemma {:induction false} CollapseIsSpread(bs: seq<Built>, at: seq<nat>, i: nat, j: nat)
    requires Kept(bs, at) && i <= |bs| && j <= |at|
    requires (forall k | 0 <= k < j :: at[k] < i) && (forall k | j <= k < |at| :: at[k] >= i)
    ensures Collapse(bs[i..], j > 0 && i > at[j - 1] + 1, j > 0) == Spread(bs, at, j)
    decreases |bs| - i
  {
    hide Kept;
    if i == |bs| {
      if j < |at| {
        InBounds(bs, at, j);
        assert false;
      }
    } else {
      assert bs[i..][1..] == bs[i + 1..];
      if IsBlank(bs[i]) {
        BlankSkipped(bs, at, i, j);
        CollapseIsSpread(bs, at, i + 1, j);
      } else {
        NextKept(bs, at, i, j);
        CollapseIsSpread(bs, at, i + 1, j + 1);
      }
    }
  }

  lemma {:induction false} KeptLines(bs: seq<Built>) returns (at: seq<nat>)
    ensures Kept(bs, at)
    decreases |bs|
  {
    if |bs| == 0 {
      at := [];
    } else {
      var n := |bs| - 1;
      var front := KeptLines(bs[..n]);
      at := if IsBlank(bs[n]) then front else front + [n];
      forall i | 0 <= i < |bs| ensures i in at <==> !IsBlank(bs[i]) {
        if i < n { assert bs[..n][i] == bs[i]; }
      }
    }
  }

  /** The first line put out is not empty. */
  lemma {:induction false} FirstNotEmpty(depth: int, lines: seq<string>)
    requires Follows(Between, lines)
    ensures var out := Collapse(BuildFrom(Normal, depth, lines), false, false);
            |out| > 0 ==> out[0] != ""
    decreases |lines|
  {
    NextFollows(Between, depth, lines);
    HeadSame(Between, depth, lines);
    BuildStep(Normal, depth, lines);
    var c := ScanLine(Normal, depth, lines[0]);
    if IsBlank(BuiltHead(Normal, depth, lines)) {
      assert Line(Between, "") == Out([], Between);
      if |lines| > 1 { FirstNotEmpty(c.depth, lines[1..]); }
    }
  }

  /** Each line followed by a newline. */
  function Written(out: seq<string>): string {
    if |out| == 0 then "" else out[0] + "\n" + Written(out[1..])
  }

  lemma {:induction false} WrittenIsJoin(out: seq<string>)
    requires |out| > 0
    ensures Written(out) == Join(out) + "\n"
    decreases |out|
  {
    if |out| > 1 {
      WrittenIsJoin(out[1..]);
      assert Written(out) == out[0] + "\n" + (Join(out[1..]) + "\n");
    } else {
      assert Written(out[1..]) == "";
    }
  }

  lemma TerminatedIsWritten(out: seq<string>)
    requires |out| > 0 ==> out[0] != ""
    ensures Terminated(out) == Written(out)
  {
    if |out| > 0 { WrittenIsJoin(out); }
  }

  /** A source that lexes is formatted by placing each of its lines, and writing the ones that
      are kept in order, with one blank line where there were some between two of them. */
  lemma FormatLaysOut(src: string)
    requires Tokens(src).Good? && QuotesEscaped(src)
    ensures exists built: seq<Built>, at: seq<nat> ::
              && |built| == |Split(src)| && (forall i | 0 <= i < |built| :: Placed(src, i, built[i]))
              && Kept(built, at) && Format(src) == Written(Spread(built, at, 0))
  {
    var lines := Split(src);
    SplitLines(src);
    SourceFollows(src);
    LexIsLines(Between, lines);
    LexedIsUnspliced(Between, 0, lines);
    FormatIsOutLines(lines);
    var built := BuildFrom(Normal, 0, lines);
    BuildLength(Normal, 0, lines);
    forall i: nat | i < |built| ensures Placed(src, i, built[i]) {
      LineIsPlaced(src, i);
    }
    var at := KeptLines(built);
    CollapseIsSpread(built, at, 0, 0);
    assert built[0..] == built;
    FirstNotEmpty(0, lines);
    TerminatedIsWritten(OutLines(lines));
  }
}
