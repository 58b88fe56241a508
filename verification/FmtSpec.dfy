/** The layout formatter: its byte scanner, and what it makes of each line. */
module FmtSpec {
  import opened LexSpec
  import opened LexLines

  datatype St = Normal | Block(depth: nat) | Str | Chr

  datatype LineInfo = LineInfo(depth: int, verbatim: bool)

  function From(s: string, n: nat): string {
    if n <= |s| then s[n..] else ""
  }

  predicate Opens(c: char) { c == '{' || c == '(' || c == '[' }
  predicate Closes(c: char) { c == '}' || c == ')' || c == ']' }

  /** Records for the lines that start after each newline still to come. */
  function ScanRest(st: St, depth: int, s: string): seq<LineInfo>
    decreases |s|
  {
    if |s| == 0 then []
    else if s[0] == '\n' then [LineInfo(depth, st != Normal)] + ScanRest(st, depth, s[1..])
    else match st
      case Normal =>
        if s[0] == '/' && Peek(s, 1) == '/' then
          ScanRest(Normal, depth, From(s, 2 + Span(From(s, 2), NotNewline)))
        else if s[0] == '/' && Peek(s, 1) == '*' then ScanRest(Block(1), depth, From(s, 2))
        else if s[0] == '"' then ScanRest(Str, depth, s[1..])
        else if s[0] == '\'' then ScanRest(Chr, depth, s[1..])
        else ScanRest(Normal, if Opens(s[0]) then depth + 1 else if Closes(s[0]) then depth - 1 else depth, s[1..])
      case Block(d) =>
        if s[0] == '/' && Peek(s, 1) == '*' then ScanRest(Block(d + 1), depth, From(s, 2))
        else if s[0] == '*' && Peek(s, 1) == '/' then
          ScanRest(if d <= 1 then Normal else Block(d - 1), depth, From(s, 2))
        else ScanRest(st, depth, s[1..])
      case Str =>
        if s[0] == '\\' then ScanRest(Str, depth, From(s, 2))
        else ScanRest(if s[0] == '"' then Normal else Str, depth, s[1..])
      case Chr =>
        if s[0] == '\\' then ScanRest(Chr, depth, From(s, 2))
        else ScanRest(if s[0] == '\'' then Normal else Chr, depth, s[1..])
  }

  /** One record per line of the source. */
  function Scan(src: string): seq<LineInfo> {
    [LineInfo(0, false)] + ScanRest(Normal, 0, src)
  }

  // -------------------------------------------------------------------- trimming

  /** Length of the white-space character at the start of `s` (UTF-8), 0 if none. */
  function BlankLen(s: string): (n: nat)
    ensures n <= |s|
  {
    if |s| == 0 then 0
    else if s[0] == ' ' || '\t' <= s[0] <= '\r' then 1
    else if |s| >= 2 && s[0] == '\U{c2}' && (s[1] == '\U{85}' || s[1] == '\U{a0}') then 2
    else if |s| >= 3 && s[0] == '\U{e1}' && s[1] == '\U{9a}' && s[2] == '\U{80}' then 3
    else if |s| >= 3 && s[0] == '\U{e2}' && s[1] == '\U{80}' &&
            ('\U{80}' <= s[2] <= '\U{8a}' || s[2] == '\U{a8}' || s[2] == '\U{a9}' || s[2] == '\U{af}') then 3
    else if |s| >= 3 && s[0] == '\U{e2}' && s[1] == '\U{81}' && s[2] == '\U{9f}' then 3
    else if |s| >= 3 && s[0] == '\U{e3}' && s[1] == '\U{80}' && s[2] == '\U{80}' then 3
    else 0
  }

  function TrimStart(s: string): (r: string)
    decreases |s|
  {
    if BlankLen(s) == 0 then s else TrimStart(s[BlankLen(s)..])
  }

  /** Length of the white-space character at the end of `s`, 0 if none. */
  function BlankLenAtEnd(s: string): (n: nat)
    ensures n <= |s|
    ensures n > 0 ==> BlankLen(s[|s| - n..]) == n
  {
    if |s| >= 1 && BlankLen(s[|s| - 1..]) == 1 then 1
    else if |s| >= 2 && BlankLen(s[|s| - 2..]) == 2 then 2
    else if |s| >= 3 && BlankLen(s[|s| - 3..]) == 3 then 3
    else 0
  }

  function TrimEnd(s: string): (r: string)
    decreases |s|
  {
    if BlankLenAtEnd(s) == 0 then s else TrimEnd(s[..|s| - BlankLenAtEnd(s)])
  }

  function Trim(s: string): string {
    TrimEnd(TrimStart(s))
  }

  // ----------------------------------------------------------------------- lines

  function LeadClosers(s: string): nat {
    if |s| == 0 || !Closes(s[0]) then 0 else 1 + LeadClosers(s[1..])
  }

  /** Four spaces per level. */
  function Indent(levels: nat): string {
    if levels == 0 then "" else "    " + Indent(levels - 1)
  }

  function Content(raw: string, endsVerbatim: bool): string {
    if endsVerbatim then TrimStart(raw) else Trim(raw)
  }

  function Laid(content: string, depth: int): string {
    if content == "" then ""
    else
      var levels := depth - LeadClosers(content);
      Indent(if levels > 0 then levels else 0) + content
  }

  datatype Built = Built(text: string, verbatim: bool)

  function InfoAt(infos: seq<LineInfo>, i: nat): LineInfo {
    if i < |infos| then infos[i] else LineInfo(0, false)
  }

  function BuildLine(infos: seq<LineInfo>, i: nat, raw: string): Built {
    if InfoAt(infos, i).verbatim then Built(raw, true)
    else Built(Laid(Content(raw, InfoAt(infos, i + 1).verbatim), InfoAt(infos, i).depth), false)
  }

  function Build(infos: seq<LineInfo>, i: nat, lines: seq<string>): seq<Built>
    decreases |lines|
  {
    if |lines| == 0 then [] else [BuildLine(infos, i, lines[0])] + Build(infos, i + 1, lines[1..])
  }

  predicate IsBlank(b: Built) {
    !b.verbatim && b.text == ""
  }

  /** Drop leading and trailing blanks, and squeeze each run of blanks to one. */
  function Collapse(bs: seq<Built>, pending: bool, seen: bool): seq<string>
    decreases |bs|
  {
    if |bs| == 0 then []
    else if IsBlank(bs[0]) then Collapse(bs[1..], pending || seen, seen)
    else (if pending then [""] else []) + [bs[0].text] + Collapse(bs[1..], false, true)
  }

  function Split(s: string): (lines: seq<string>)
    ensures |lines| > 0
  {
    if |s| == 0 then [""]
    else
      var rest := Split(s[1..]);
      if s[0] == '\n' then [""] + rest else [[s[0]] + rest[0]] + rest[1..]
  }

  function Terminated(out: seq<string>): string {
    if Join(out) == "" then "" else Join(out) + "\n"
  }

  function Format(src: string): string {
    Terminated(Collapse(Build(Scan(src), 0, Split(src)), false, false))
  }

  datatype Checked = Accepted(text: string) | InputDoesNotLex | OutputDoesNotLex | TokensChanged

  function FormatChecked(src: string): Checked {
    var out := Format(src);
    if out == src then Accepted(out)
    else if Tokens(src).Bad? then InputDoesNotLex
    else if Tokens(out).Bad? then OutputDoesNotLex
    else if Tokens(src) != Tokens(out) then TokensChanged
    else Accepted(out)
  }

  // ---------------------------------------------------------- splitting and joining

  lemma {:induction false} SplitLines(s: string)
    ensures forall l | l in Split(s) :: OneLine(l)
    ensures Join(Split(s)) == s
  {
    if |s| > 0 {
      SplitLines(s[1..]);
      var rest := Split(s[1..]);
      assert s == [s[0]] + s[1..];
      if s[0] == '\n' {
        assert ([""] + rest)[1..] == rest;
      } else {
        JoinGrow(s[0], rest);
        assert rest[0] in rest && forall l | l in rest[1..] :: l in rest;
      }
    }
  }

  lemma JoinGrow(c: char, rest: seq<string>)
    requires |rest| > 0
    ensures Join([[c] + rest[0]] + rest[1..]) == [c] + Join(rest)
  {
    var head, tail := rest[0], rest[1..];
    var lines := [[c] + head] + tail;
    assert |lines| == |rest| && lines[0] == [c] + head;
    assert lines[1..] == tail;
    if |rest| > 1 { PrependOver(c, head, Join(tail)); }
  }

  lemma PrependOver(c: char, a: string, b: string)
    ensures [c] + a + "\n" + b == [c] + (a + "\n" + b)
  {
  }

  lemma {:induction false} SplitOfJoin(lines: seq<string>)
    requires |lines| > 0 && forall l | l in lines :: OneLine(l)
    ensures Split(Join(lines)) == lines
    decreases |lines|
  {
    assert lines[0] in lines;
    if |lines| == 1 {
      SplitOne(lines[0]);
    } else {
      assert forall l | l in lines[1..] :: l in lines;
      SplitOfJoin(lines[1..]);
      SplitFirst(lines[0], Join(lines[1..]));
      assert lines[0] + "\n" + Join(lines[1..]) == lines[0] + ("\n" + Join(lines[1..]));
    }
  }

  lemma {:induction false} SplitOne(s: string)
    requires OneLine(s)
    ensures Split(s) == [s]
  {
    if |s| > 0 {
      assert s[0] in s && forall c | c in s[1..] :: c in s;
      SplitOne(s[1..]);
      assert [s[0]] + s[1..] == s && [s[1..]][1..] == [];
    }
  }

  lemma {:induction false} SplitFirst(s: string, q: string)
    requires OneLine(s)
    ensures Split(s + ("\n" + q)) == [s] + Split(q)
    decreases |s|
  {
    var all := s + ("\n" + q);
    if |s| == 0 {
      assert all == "\n" + q && all[1..] == q;
    } else {
      assert s[0] in s && forall c | c in s[1..] :: c in s;
      assert all[1..] == s[1..] + ("\n" + q);
      SplitFirst(s[1..], q);
      assert [s[0]] + s[1..] == s;
    }
  }

  lemma JoinEmptyLast(out: seq<string>)
    requires |out| > 0
    ensures Join(out + [""]) == Join(out) + "\n"
    decreases |out|
  {
    if |out| == 1 {
      assert (out + [""])[1..] == [""];
      assert Join(out + [""]) == out[0] + "\n" + "";
    } else {
      assert (out + [""])[1..] == out[1..] + [""];
      JoinEmptyLast(out[1..]);
      assert Join(out + [""]) == out[0] + "\n" + (Join(out[1..]) + "\n");
    }
  }
}
