/** A check on the bytes of a source that is enough for formatting to be safe. */
module QuoteCheck {
  import opened LexSpec
  import opened LexLines
  import opened FmtSpec
  import opened TokenPreservation

  /** No three quotes in a row, wherever they stand. */
  predicate NoTripleQuote(s: string) {
    forall i | 0 <= i && i + 2 < |s| :: !(s[i] == '\'' && s[i + 1] == '\'' && s[i + 2] == '\'')
  }

  /** Nor do the bytes ahead complete such a literal already begun. */
  predicate Clear(m: Mode, s: string) {
    NoTripleQuote(s) && (m.Quote? ==> !(|s| >= 2 && s[0] == '\'' && s[1] == '\''))
  }

  lemma SuffixSane(s: string, n: nat)
    requires NoTripleQuote(s) && n <= |s|
    ensures NoTripleQuote(s[n..])
  {
    forall i | 0 <= i && i + 2 < |s[n..]|
      ensures !(s[n..][i] == '\'' && s[n..][i + 1] == '\'' && s[n..][i + 2] == '\'')
    {
      assert s[n..][i] == s[n + i] && s[n..][i + 1] == s[n + i + 1] && s[n..][i + 2] == s[n + i + 2];
    }
  }

  /** On a line that lexes, a literal with a bare quote shows as three quotes. */
  lemma {:induction false} ClearIsSane(m: Mode, s: string)
    requires Line(m, s).Out? && Clear(m, s)
    ensures NoBareQuote(m, s)
    decreases |s|
  {
    if |s| > 0 {
      SuffixSane(s, 1);
      if |s| >= 2 { SuffixSane(s, 2); }
      match m
      case Between =>
        StepBetween(s);
        if s[0] == '\'' {
          if |s| >= 3 { assert !(s[0] == '\'' && s[0 + 1] == '\'' && s[0 + 2] == '\''); }
          ClearIsSane(Quote, s[1..]);
        } else if IsSpace(s[0]) {
          ClearIsSane(Between, s[1..]);
        } else if s[0] == '/' && Peek(s, 1) == '/' {
        } else if s[0] == '/' && Peek(s, 1) == '*' {
          ClearIsSane(Comment(1), s[2..]);
        } else if s[0] == '"' {
          ClearIsSane(InStr(""), s[1..]);
        } else {
          SuffixSane(s, Code(s).len);
          ClearIsSane(Between, s[Code(s).len..]);
        }
      case Comment(d) =>
        StepComment(d, s);
        if s[0] == '/' && Peek(s, 1) == '*' {
          ClearIsSane(Comment(d + 1), s[2..]);
        } else if s[0] == '*' && Peek(s, 1) == '/' {
          ClearIsSane(if d <= 1 then Between else Comment(d - 1), s[2..]);
        } else {
          ClearIsSane(Comment(d), s[1..]);
        }
      case InStr(text) =>
        StepStr(text, s);
        if s[0] == '"' {
          ClearIsSane(Between, s[1..]);
        } else if s[0] == '\\' {
          var u := Unescape(s[1..]);
          SuffixSane(s, 1 + u.len);
          ClearIsSane(InStr(text + [u.c]), s[1 + u.len..]);
        } else {
          ClearIsSane(InStr(text + [s[0]]), s[1..]);
        }
      case Quote =>
        StepQuote(s);
        if s[0] == '\\' {
          var u := Unescape(s[1..]);
          SuffixSane(s, 1 + u.len);
          ClearIsSane(Close(u.c), s[1 + u.len..]);
        } else {
          CloseStep(s[0], s[1..]);
          assert s[1] == s[1..][0] == '\'';
          ClearIsSane(Close(s[0]), s[1..]);
        }
      case Close(_) => ClearIsSane(Between, s[1..]);
    }
  }

  /** Where a newline is a character, the next line cannot go on with two quotes. */
  lemma {:induction false} LinesEscaped(m: Mode, lines: seq<string>)
    requires Lines(m, lines).Good? && !m.Quote? && forall l | l in lines :: NoTripleQuote(l)
    ensures NoBareQuotes(m, lines)
    decreases |lines|
  {
    if |lines| > 0 {
      assert lines[0] in lines && forall l | l in lines[1..] :: l in lines;
      ClearIsSane(m, lines[0]);
      var next := AfterNewline(Line(m, lines[0]).mode);
      if |lines| > 1 { LinesEscaped(next, lines[1..]); }
    }
  }

  /** Bytes alone decide enough: without three quotes in a row every quote is escaped. */
  lemma NoTripleQuoteSuffices(src: string)
    requires Tokens(src).Good? && NoTripleQuote(src)
    ensures QuotesEscaped(src)
  {
    SplitLines(src);
    LexIsLines(Between, Split(src));
    forall l | l in Split(src) ensures NoTripleQuote(l) { PieceSane(src, l); }
    LinesEscaped(Between, Split(src));
  }

  /** A line of the source inherits the absence of triple quotes. */
  lemma {:induction false} PieceSane(s: string, l: string)
    requires NoTripleQuote(s) && l in Split(s)
    ensures NoTripleQuote(l)
  {
    var k :| 0 <= k < |Split(s)| && Split(s)[k] == l;
    var n := PieceAt(s, k);
    forall i | 0 <= i && i + 2 < |l| ensures !(l[i] == '\'' && l[i + 1] == '\'' && l[i + 2] == '\'') {
      assert l[i] == s[n + i] && l[i + 1] == s[n + i + 1] && l[i + 2] == s[n + i + 2];
    }
  }

  predicate Piece(l: string, s: string, n: nat) {
    n + |l| <= |s| && l == s[n..n + |l|]
  }

  lemma {:induction false} PieceAt(s: string, k: nat) returns (n: nat)
    requires k < |Split(s)|
    ensures Piece(Split(s)[k], s, n)
    ensures k == 0 ==> n == 0
  {
    n := 0;
    if |s| > 0 {
      var t := s[1..];
      var rest := Split(t);
      if s[0] != '\n' && k == 0 {
        var m := PieceAt(t, 0);
        PieceGrows(s, rest[0]);
      } else if k > 0 {
        var l := Split(s)[k];
        var m := PieceAt(t, if s[0] == '\n' then k - 1 else k);
        PieceShifts(s, l, m);
        n := m + 1;
      }
    }
  }

  lemma PieceShifts(s: string, l: string, m: nat)
    requires |s| > 0 && Piece(l, s[1..], m)
    ensures Piece(l, s, m + 1)
  {
  }

  lemma PieceGrows(s: string, l: string)
    requires |s| > 0 && Piece(l, s[1..], 0)
    ensures Piece([s[0]] + l, s, 0)
  {
  }
}
