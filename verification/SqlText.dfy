/**
 The SQL statement splitter and the string-literal escaper.

 A string is the sequence of its UTF-8 bytes, each written as the character of that code.
 */
module SqlText {
  import opened Sequences

  // ---- the lexical grammar ----------------------------------------------------

  datatype Mode = Normal | Quoted(quote: char) | Comment

  /** A piece of the input: kept text, dropped comment text, or a top-level semicolon. */
  datatype Token = Text(raw: string) | Dropped(raw: string) | Semicolon

  datatype Step = Step(width: nat, token: Token, next: Mode)

  predicate IsQuote(c: char) {
    c == '\'' || c == '"' || c == '`'
  }

  /** The first token of `s` in `mode`, how many bytes it takes, and the mode after it. */
  function First(s: string, mode: Mode): (r: Step)
    requires s != ""
    ensures 1 <= r.width <= |s|
  {
    match mode
    case Comment =>
      if s[0] == '\n' then Step(1, Text(s[..1]), Normal) else Step(1, Dropped(s[..1]), Comment)
    case Quoted(q) =>
      if s[0] == '\\' && |s| > 1 then Step(2, Text(s[..2]), mode)
      else if s[0] == q && |s| > 1 && s[1] == q then Step(2, Text(s[..2]), mode)
      else Step(1, Text(s[..1]), if s[0] == q then Normal else mode)
    case Normal =>
      if s[0] == '-' && |s| > 1 && s[1] == '-' then Step(2, Dropped(s[..2]), Comment)
      else if s[0] == ';' then Step(1, Semicolon, Normal)
      else Step(1, Text(s[..1]), if IsQuote(s[0]) then Quoted(s[0]) else Normal)
  }

  function Lex(s: string, mode: Mode): seq<Token> {
    if s == "" then []
    else var r := First(s, mode); [r.token] + Lex(s[r.width..], r.next)
  }

  /** The mode in which the end of `s` is reached. */
  function EndMode(s: string, mode: Mode): Mode {
    if s == "" then mode
    else var r := First(s, mode); EndMode(s[r.width..], r.next)
  }

  function Raw(ts: seq<Token>): string {
    if ts == [] then ""
    else (if ts[0].Semicolon? then ";" else ts[0].raw) + Raw(ts[1..])
  }

  /** The kept text of the tokens. */
  function Kept(ts: seq<Token>): string {
    if ts == [] then ""
    else (if ts[0].Text? then ts[0].raw else "") + Kept(ts[1..])
  }

  function CountSemicolons(ts: seq<Token>): nat {
    if ts == [] then 0 else (if ts[0].Semicolon? then 1 else 0) + CountSemicolons(ts[1..])
  }

  function Prepend(x: string, segs: seq<string>): seq<string>
    requires |segs| > 0
  {
    [x + segs[0]] + segs[1..]
  }

  /** The kept text between top-level semicolons. */
  function Segments(ts: seq<Token>): (segs: seq<string>)
    ensures |segs| > 0
  {
    if ts == [] then [""]
    else match ts[0]
         case Text(x) => Prepend(x, Segments(ts[1..]))
         case Dropped(_) => Segments(ts[1..])
         case Semicolon => [""] + Segments(ts[1..])
  }

  function Concat(segs: seq<string>): string {
    if segs == [] then "" else segs[0] + Concat(segs[1..])
  }

  // ---- white space ----------------------------------------------------------------

  /** The UTF-8 encodings of the Unicode white-space characters. */
  predicate IsSpace(w: string) {
    || (|w| == 1 && w[0] in {'\U{0009}', '\U{000A}', '\U{000B}', '\U{000C}', '\U{000D}', ' '})
    || (|w| == 2 && w[0] == '\U{00C2}' && w[1] in {'\U{0085}', '\U{00A0}'})
    || (|w| == 3 && w[0] == '\U{00E1}' && w[1] == '\U{009A}' && w[2] == '\U{0080}')
    || (|w| == 3 && w[0] == '\U{00E2}' && w[1] == '\U{0080}'
        && ('\U{0080}' <= w[2] <= '\U{008A}' || w[2] in {'\U{00A8}', '\U{00A9}', '\U{00AF}'}))
    || (|w| == 3 && w[0] == '\U{00E2}' && w[1] == '\U{0081}' && w[2] == '\U{009F}')
    || (|w| == 3 && w[0] == '\U{00E3}' && w[1] == '\U{0080}' && w[2] == '\U{0080}')
  }

  /** The width of the white-space character `s` starts with, or 0. */
  function LeadingSpace(s: string): (n: nat)
    ensures n <= |s| && (n > 0 ==> IsSpace(s[..n]) && !IsQuote(s[0]))
  {
    if |s| >= 1 && IsSpace(s[..1]) then 1
    else if |s| >= 2 && IsSpace(s[..2]) then 2
    else if |s| >= 3 && IsSpace(s[..3]) then 3
    else 0
  }

  /** The width of the white-space character `s` ends with, or 0. */
  function TrailingSpace(s: string): (n: nat)
    ensures n <= |s| && (n > 0 ==> IsSpace(s[|s| - n..]))
  {
    if |s| >= 1 && IsSpace(s[|s| - 1..]) then 1
    else if |s| >= 2 && IsSpace(s[|s| - 2..]) then 2
    else if |s| >= 3 && IsSpace(s[|s| - 3..]) then 3
    else 0
  }

  function TrimLeft(s: string): string {
    var n := LeadingSpace(s);
    if n == 0 then s else TrimLeft(s[n..])
  }

  function TrimRight(s: string): string {
    var n := TrailingSpace(s);
    if n == 0 then s else TrimRight(s[..|s| - n])
  }

  function TrimSpace(s: string): string {
    TrimRight(TrimLeft(s))
  }

  predicate IsTrimmed(s: string) {
    LeadingSpace(s) == 0 && TrailingSpace(s) == 0
  }

  // ---- splitting ------------------------------------------------------------------------

  /** The trimmed segments that are not empty. */
  function Statements(segs: seq<string>): seq<string> {
    if segs == [] then []
    else
      var part := TrimSpace(segs[0]);
      (if part == "" then [] else [part]) + Statements(segs[1..])
  }

  function Split(s: string): seq<string> {
    Statements(Segments(Lex(s, Normal)))
  }

  /** The state of the loop as a lexer mode; a quote of '\0' stands for none. */
  function ModeOf(quote: char, lineComment: bool): Mode {
    if lineComment then Comment else if quote != '\0' then Quoted(quote) else Normal
  }

  /** The loop as a recursion: finished statements, the pending one, and the unread input. */
  function Scan(out: seq<string>, stmt: string, s: string, mode: Mode): seq<string>
    decreases |s|
  {
    if s == "" then out + Statements([stmt])
    else
      var r := First(s, mode);
      match r.token
      case Text(x) => Scan(out, stmt + x, s[r.width..], r.next)
      case Dropped(_) => Scan(out, stmt, s[r.width..], r.next)
      case Semicolon => Scan(out + Statements([stmt]), "", s[r.width..], r.next)
  }

  ghost function Remaining(out: seq<string>, stmt: string, s: string, mode: Mode): seq<string> {
    out + Statements(Prepend(stmt, Segments(Lex(s, mode))))
  }

  lemma PrependTwice(x: string, y: string, segs: seq<string>)
    requires |segs| > 0
    ensures Prepend(x, Prepend(y, segs)) == Prepend(x + y, segs)
  {
    Assoc(x, y, segs[0]);
  }

  lemma SegmentsOfText(x: string, ts: seq<Token>)
    ensures Segments([Text(x)] + ts) == Prepend(x, Segments(ts))
  {
    assert ([Text(x)] + ts)[1..] == ts;
  }

  lemma ReadText(out: seq<string>, stmt: string, s: string, mode: Mode)
    requires s != "" && First(s, mode).token.Text?
    ensures var r := First(s, mode);
      Remaining(out, stmt, s, mode) == Remaining(out, stmt + r.token.raw, s[r.width..], r.next)
  {
    var r := First(s, mode);
    var ts := Lex(s[r.width..], r.next);
    SegmentsOfText(r.token.raw, ts);
    PrependTwice(stmt, r.token.raw, Segments(ts));
  }

  lemma ReadDropped(out: seq<string>, stmt: string, s: string, mode: Mode)
    requires s != "" && First(s, mode).token.Dropped?
    ensures var r := First(s, mode);
      Remaining(out, stmt, s, mode) == Remaining(out, stmt, s[r.width..], r.next)
  {
    var r := First(s, mode);
    assert Lex(s, mode)[0] == r.token && Lex(s, mode)[1..] == Lex(s[r.width..], r.next);
  }

  lemma PrependToBlank(x: string, segs: seq<string>)
    ensures Prepend(x, [""] + segs) == [x] + segs
  {
    assert x + "" == x;
  }

  lemma PrependNothing(segs: seq<string>)
    requires |segs| > 0
    ensures Prepend("", segs) == segs
  {
    assert "" + segs[0] == segs[0];
  }

  lemma StatementsOfFirst(x: string, segs: seq<string>)
    ensures Statements([x] + segs) == Statements([x]) + Statements(segs)
  {
    var part := TrimSpace(x);
    var first := if part == "" then [] else [part];
    assert [x][1..] == [] && Statements([]) == [];
    NothingRight(first);
    assert Statements([x]) == first;
    assert ([x] + segs)[0] == x && ([x] + segs)[1..] == segs;
  }

  lemma ReadSemicolon(out: seq<string>, stmt: string, s: string, mode: Mode)
    requires s != "" && First(s, mode).token.Semicolon?
    ensures var r := First(s, mode);
      Remaining(out, stmt, s, mode) == Remaining(out + Statements([stmt]), "", s[r.width..], r.next)
  {
    var r := First(s, mode);
    var ts := Lex(s[r.width..], r.next);
    assert Lex(s, mode)[0] == r.token && Lex(s, mode)[1..] == ts;
    var segs := Segments(ts);
    PrependToBlank(stmt, segs);
    PrependNothing(segs);
    StatementsOfFirst(stmt, segs);
    Assoc(out, Statements([stmt]), Statements(segs));
  }

  /** Scanning cuts at the semicolons that the tokens show. */
  lemma {:induction false} ScanIsRemaining(out: seq<string>, stmt: string, s: string, mode: Mode)
    ensures Scan(out, stmt, s, mode) == Remaining(out, stmt, s, mode)
    decreases |s|
  {
    if s == "" {
      NothingRight(stmt);
      assert Prepend(stmt, Segments([])) == [stmt];
    } else {
      var r := First(s, mode);
      var rest := s[r.width..];
      match r.token
      case Text(x) =>
        ScanIsRemaining(out, stmt + x, rest, r.next);
        ReadText(out, stmt, s, mode);
      case Dropped(_) =>
        ScanIsRemaining(out, stmt, rest, r.next);
        ReadDropped(out, stmt, s, mode);
      case Semicolon =>
        ScanIsRemaining(out + Statements([stmt]), "", rest, r.next);
        ReadSemicolon(out, stmt, s, mode);
    }
  }

  lemma ScanIsSplit(s: string)
    ensures Scan([], "", s, Normal) == Split(s)
  {
    ScanIsRemaining([], "", s, Normal);
    PrependNothing(Segments(Lex(s, Normal)));
    NothingLeft(Split(s));
  }

  /** The `k` bytes at `i` have been read. */
  lemma Advance(s: string, i: nat, k: nat, rest: string)
    requires i + k <= |s| && rest == s[i..]
    ensures rest[k..] == s[i + k..]
  {
    DropTwice(s, i, k);
  }

  lemma CommentStep(out: seq<string>, stmt: string, rest: string)
    requires rest != ""
    ensures Scan(out, stmt, rest, Comment) ==
      if rest[0] == '\n' then Scan(out, stmt + [rest[0]], rest[1..], Normal) else Scan(out, stmt, rest[1..], Comment)
  {
    assert rest[..1] == [rest[0]];
  }

  lemma QuotedStep(out: seq<string>, stmt: string, rest: string, quote: char)
    requires rest != ""
    ensures var r := First(rest, Quoted(quote));
      r.token.Text? && Scan(out, stmt, rest, Quoted(quote)) == Scan(out, stmt + r.token.raw, rest[r.width..], r.next)
  {
  }

  lemma NormalStep(out: seq<string>, stmt: string, rest: string)
    requires rest != ""
    ensures Scan(out, stmt, rest, Normal) ==
      if rest[0] == '-' && |rest| > 1 && rest[1] == '-' then Scan(out, stmt, rest[2..], Comment)
      else if rest[0] == ';' then Scan(out + Statements([stmt]), "", rest[1..], Normal)
      else Scan(out, stmt + [rest[0]], rest[1..], if IsQuote(rest[0]) then Quoted(rest[0]) else Normal)
  {
    assert rest[..1] == [rest[0]];
  }

  /** Break a schema into statements on semicolons outside quotes and line comments. */
  method SplitStatements(s: string) returns (out: seq<string>)
    ensures out == Split(s)
  {
    out := [];
    var stmt := "";
    var quote := '\0';
    var lineComment := false;
    var i := 0;
    ghost var all, rest := Scan([], "", s, Normal), s;
    while i < |s|
      invariant 0 <= i <= |s| && rest == s[i..]
      invariant quote == '\0' || (IsQuote(quote) && !lineComment)
      invariant Scan(out, stmt, rest, ModeOf(quote, lineComment)) == all
    {
      var ch := s[i];
      if lineComment {
        CommentStep(out, stmt, rest);
        if ch == '\n' {
          lineComment := false;
          stmt := stmt + [ch];
        }
      } else if quote != '\0' {
        QuotedStep(out, stmt, rest, quote);
        ghost var width := First(rest, Quoted(quote)).width;
        Advance(s, i, width - 1, rest);
        stmt, i, quote := ReadQuoted(s, i, stmt, quote);
        rest := rest[width - 1..];
      } else {
        NormalStep(out, stmt, rest);
        if ch == '-' && i + 1 < |s| && s[i + 1] == '-' {
          lineComment := true;
          Advance(s, i, 1, rest);
          i := i + 1;
          rest := rest[1..];
        } else if ch == ';' {
          out := Flush(out, stmt);
          stmt := "";
        } else {
          if IsQuote(ch) {
            quote := ch;
          }
          stmt := stmt + [ch];
        }
      }
      Advance(s, i, 1, rest);
      i := i + 1;
      rest := rest[1..];
    }
    out := Flush(out, stmt);
    ScanIsSplit(s);
  }

  /** One step inside a quoted value, up to its last byte read. */
  method ReadQuoted(s: string, i0: nat, stmt0: string, quote0: char) returns (stmt: string, i: nat, quote: char)
    requires i0 < |s| && IsQuote(quote0)
    ensures var r := First(s[i0..], Quoted(quote0));
      && i + 1 == i0 + r.width && stmt == stmt0 + r.token.raw
      && quote in {quote0, '\0'} && ModeOf(quote, false) == r.next
  {
    i, quote := i0, quote0;
    var ch := s[i];
    stmt := stmt0 + [ch];
    assert s[i0..][..1] == [ch];
    if ch == '\\' && i + 1 < |s| {
      i := i + 1;
      stmt := stmt + [s[i]];
      assert s[i0..][..2] == [ch] + [s[i]];
    } else if ch == quote {
      if i + 1 < |s| && s[i + 1] == quote {
        i := i + 1;
        stmt := stmt + [s[i]];
        assert s[i0..][..2] == [ch] + [s[i]];
      } else {
        quote := '\0';
      }
    }
  }

  /** Keep a finished statement unless it is blank. */
  method Flush(out: seq<string>, stmt: string) returns (r: seq<string>)
    ensures r == out + Statements([stmt])
  {
    r := out;
    var part := TrimSpace(stmt);
    if part != "" {
      r := r + [part];
    }
  }

  // ---- nothing lost or reordered ------------------------------------------------------

  /** The tokens are the input, cut up: nothing is lost, added or moved. */
  lemma {:induction false} LexIsLossless(s: string, mode: Mode)
    ensures Raw(Lex(s, mode)) == s
    decreases |s|
  {
    if s != "" {
      var r := First(s, mode);
      LexIsLossless(s[r.width..], r.next);
      TakeAndDrop(s, r.width);
      assert Lex(s, mode)[1..] == Lex(s[r.width..], r.next);
    }
  }

  /** The segments, concatenated, are the kept text, and the semicolons separate them. */
  lemma {:induction false} SegmentsKeepText(ts: seq<Token>)
    ensures Concat(Segments(ts)) == Kept(ts)
    ensures |Segments(ts)| == CountSemicolons(ts) + 1
    decreases |ts|
  {
    if ts == [] {
      assert Concat([""]) == "" + Concat([]);
    } else {
      SegmentsKeepText(ts[1..]);
      var segs := Segments(ts[1..]);
      match ts[0]
      case Text(x) =>
        assert Prepend(x, segs)[1..] == segs[1..];
      case Dropped(_) =>
      case Semicolon =>
        assert ([""] + segs)[1..] == segs;
    }
  }

  /**
   Dropped text is exactly the line comments: it starts at a "--" outside quotes, holds no
   newline, and runs up to a newline or the end.
   */
  lemma {:induction false} DroppedIsComments(s: string, mode: Mode)
    ensures var ts := Lex(s, mode);
      && (mode != Comment && ts != [] && ts[0].Dropped? ==> ts[0].raw == "--")
      && (mode == Comment && ts != [] ==> ts[0].Dropped? || ts[0] == Text("\n"))
      && forall k :: 0 <= k < |ts| ==>
           && (ts[k].Dropped? ==> '\n' !in ts[k].raw)
           && (k > 0 && ts[k].Dropped? && !ts[k - 1].Dropped? ==> ts[k].raw == "--")
           && (k > 0 && ts[k - 1].Dropped? ==> ts[k].Dropped? || ts[k] == Text("\n"))
    decreases |s|
  {
    if s != "" {
      var r := First(s, mode);
      var ts, rest := Lex(s, mode), Lex(s[r.width..], r.next);
      assert ts == [r.token] + rest;
      DroppedIsComments(s[r.width..], r.next);
      assert r.token.Dropped? <==> r.next == Comment;
    }
  }

  // ---- plain text: no comment and no top-level semicolon ------------------------------------

  /** Lexing `p` from `mode` meets neither a comment nor a top-level semicolon. */
  predicate IsPlain(p: string, mode: Mode) {
    p == "" || (var r := First(p, mode); r.token.Text? && IsPlain(p[r.width..], r.next))
  }

  /** Plain text that leaves no quote open. */
  predicate IsClosed(p: string, mode: Mode) {
    IsPlain(p, mode) && EndMode(p, mode) == Normal
  }

  /** `p` read before `rest` is read as if nothing followed: no lookahead crosses the boundary. */
  predicate Separable(p: string, rest: string) {
    p == "" || rest == "" || !((rest[0] == '-' || IsQuote(rest[0])) && p[|p| - 1] == rest[0])
  }

  /** The first token of `p` does not depend on what follows. */
  lemma FirstAcross(p: string, rest: string, mode: Mode)
    requires EndMode(p, mode) == Normal && Separable(p, rest) && p != ""
    requires mode.Quoted? ==> IsQuote(mode.quote)
    ensures First(p + rest, mode) == First(p, mode)
  {
    var r := First(p, mode);
    assert (p + rest)[..r.width] == p[..r.width];
    if |p| == 1 {
      assert p[1..] == "" && EndMode(p, mode) == r.next == Normal;
      assert rest != "" ==> (p + rest)[1] == rest[0];
    }
  }

  lemma SeparableTail(p: string, rest: string, k: nat)
    requires Separable(p, rest) && k <= |p|
    ensures Separable(p[k..], rest)
  {
  }

  /** Text that stands apart is lexed as if nothing followed, and what follows as if nothing preceded. */
  lemma {:induction false} LexAcross(p: string, rest: string, mode: Mode)
    requires EndMode(p, mode) == Normal && Separable(p, rest)
    requires mode.Quoted? ==> IsQuote(mode.quote)
    ensures Lex(p + rest, mode) == Lex(p, mode) + Lex(rest, Normal)
    decreases |p|
  {
    if p == "" {
      NothingLeft(rest);
      NothingLeft(Lex(rest, Normal));
    } else {
      var r := First(p, mode);
      var q := p[r.width..];
      FirstAcross(p, rest, mode);
      DropFromConcat(p, rest, r.width);
      SeparableTail(p, rest, r.width);
      LexAcross(q, rest, r.next);
      Assoc([r.token], Lex(q, r.next), Lex(rest, Normal));
    }
  }

  /** The tokens of plain text are one segment. */
  lemma {:induction false} PlainIsOneSegment(p: string, mode: Mode, ts: seq<Token>)
    requires IsPlain(p, mode)
    ensures Segments(Lex(p, mode) + ts) == Prepend(p, Segments(ts))
    decreases |p|
  {
    if p == "" {
      NothingLeft(ts);
      PrependNothing(Segments(ts));
    } else {
      var r := First(p, mode);
      var q := p[r.width..];
      PlainIsOneSegment(q, r.next, ts);
      Assoc([r.token], Lex(q, r.next), ts);
      SegmentsOfText(r.token.raw, Lex(q, r.next) + ts);
      PrependTwice(r.token.raw, q, Segments(ts));
      FirstIsHead(p, mode);
    }
  }

  lemma FirstIsHead(p: string, mode: Mode)
    requires p != "" && First(p, mode).token.Text?
    ensures var r := First(p, mode); r.token.raw + p[r.width..] == p
  {
    TakeAndDrop(p, First(p, mode).width);
  }

  // ---- every segment is plain ------------------------------------------------------------------

  /** The mode a segment starts in: a comment is no part of it. */
  function StartMode(mode: Mode): Mode {
    if mode == Comment then Normal else mode
  }

  lemma {:induction false} SegmentStart(s: string, mode: Mode)
    requires s != ""
    ensures var x := Segments(Lex(s, mode))[0]; x == "" || x[0] == s[0] || x[0] == '\n'
    decreases |s|
  {
    var r := First(s, mode);
    assert Lex(s, mode)[1..] == Lex(s[r.width..], r.next);
    if r.token.Dropped? && s[r.width..] != "" {
      CommentSegmentStart(s[r.width..]);
    }
  }

  lemma {:induction false} CommentSegmentStart(s: string)
    ensures var x := Segments(Lex(s, Comment))[0]; x == "" || x[0] == '\n'
    decreases |s|
  {
    if s != "" {
      assert Lex(s, Comment)[1..] == Lex(s[1..], First(s, Comment).next);
      CommentSegmentStart(s[1..]);
    }
  }

  predicate AreSegments(segs: seq<string>, mode: Mode)
    requires |segs| > 0
  {
    && IsPlain(segs[0], mode)
    && (|segs| > 1 ==> EndMode(segs[0], mode) == Normal && AreSegments(segs[1..], Normal))
  }

  /** The lookahead that read a text token reads it again at the head of its segment. */
  lemma TextHeadsSegment(s: string, mode: Mode)
    requires s != "" && First(s, mode).token.Text?
    requires mode.Quoted? ==> IsQuote(mode.quote)
    ensures var r := First(s, mode);
      var x := r.token.raw + Segments(Lex(s[r.width..], r.next))[0];
      x != "" && First(x, StartMode(mode)) == r && x[r.width..] == Segments(Lex(s[r.width..], r.next))[0]
  {
    var r := First(s, mode);
    var q := s[r.width..];
    var seg := Segments(Lex(q, r.next))[0];
    if q != "" {
      SegmentStart(q, r.next);
    }
    var x := r.token.raw + seg;
    assert x[..r.width] == r.token.raw;
    assert seg != "" && r.width == 1 ==> x[1] == seg[0];
  }

  lemma {:induction false} SegmentsArePlain(s: string, mode: Mode)
    requires mode.Quoted? ==> IsQuote(mode.quote)
    ensures AreSegments(Segments(Lex(s, mode)), StartMode(mode))
    decreases |s|
  {
    if s != "" {
      var r := First(s, mode);
      var q := s[r.width..];
      assert Lex(s, mode)[0] == r.token && Lex(s, mode)[1..] == Lex(q, r.next);
      var rest := Segments(Lex(q, r.next));
      SegmentsArePlain(q, r.next);
      match r.token
      case Text(x) =>
        TextHeadsSegment(s, mode);
        assert Prepend(x, rest)[1..] == rest[1..];
        assert StartMode(r.next) == r.next;
      case Dropped(_) =>
      case Semicolon =>
        assert ([""] + rest)[1..] == rest;
    }
  }

  // ---- trimming keeps plain text plain --------------------------------------------------------------

  /** A byte that only ever stands for itself. */
  predicate IsNeutral(c: char) {
    !IsQuote(c) && c != '-' && c != ';' && c != '\\'
  }

  lemma {:induction false} DropHead(c: char, p: string)
    requires IsNeutral(c) && IsPlain([c] + p, Normal)
    ensures IsPlain(p, Normal) && EndMode(p, Normal) == EndMode([c] + p, Normal)
  {
    assert First([c] + p, Normal) == Step(1, Text([c]), Normal);
    assert ([c] + p)[1..] == p;
  }

  lemma {:induction false} DropTail(p: string, c: char, mode: Mode)
    requires IsNeutral(c) && mode != Comment && IsPlain(p + [c], mode)
    requires mode.Quoted? ==> IsQuote(mode.quote)
    ensures IsPlain(p, mode)
    ensures EndMode(p + [c], mode) == Normal ==> EndMode(p, mode) == Normal
    decreases |p|
  {
    if p == "" {
      assert p + [c] == [c];
    } else {
      var r, whole := First(p, mode), First(p + [c], mode);
      if whole.width > |p| {
        assert p[r.width..] == "" && (p + [c])[whole.width..] == "";
      } else {
        assert r == whole;
        assert (p + [c])[r.width..] == p[r.width..] + [c];
        DropTail(p[r.width..], c, r.next);
      }
    }
  }

  lemma {:induction false} DropHeads(w: string, p: string)
    requires (forall c :: c in w ==> IsNeutral(c)) && IsPlain(w + p, Normal)
    ensures IsPlain(p, Normal) && EndMode(p, Normal) == EndMode(w + p, Normal)
    decreases |w|
  {
    if w == "" {
      assert w + p == p;
    } else {
      assert w + p == [w[0]] + (w[1..] + p);
      DropHead(w[0], w[1..] + p);
      DropHeads(w[1..], p);
    }
  }

  lemma {:induction false} DropTails(p: string, w: string)
    requires (forall c :: c in w ==> IsNeutral(c)) && IsPlain(p + w, Normal)
    ensures IsPlain(p, Normal) && (EndMode(p + w, Normal) == Normal ==> EndMode(p, Normal) == Normal)
    decreases |w|
  {
    if w == "" {
      assert p + w == p;
    } else {
      var v, c := w[..|w| - 1], w[|w| - 1];
      assert p + w == (p + v) + [c];
      DropTail(p + v, c, Normal);
      DropTails(p, v);
    }
  }

  lemma SpaceIsNeutral(w: string)
    requires IsSpace(w)
    ensures forall c :: c in w ==> IsNeutral(c)
  {
  }

  lemma {:induction false} TrimLeftKeepsPlain(p: string)
    requires IsPlain(p, Normal)
    ensures IsPlain(TrimLeft(p), Normal) && EndMode(TrimLeft(p), Normal) == EndMode(p, Normal)
    ensures LeadingSpace(TrimLeft(p)) == 0
    decreases |p|
  {
    var n := LeadingSpace(p);
    if n > 0 {
      SpaceIsNeutral(p[..n]);
      TakeAndDrop(p, n);
      DropHeads(p[..n], p[n..]);
      TrimLeftKeepsPlain(p[n..]);
    }
  }

  lemma PrefixKeepsSpace(p: string, q: string)
    requires q <= p
    ensures LeadingSpace(q) > 0 ==> LeadingSpace(p) > 0
  {
    var k := LeadingSpace(q);
    assert q[..k] == p[..k];
  }

  lemma {:induction false} TrimRightKeepsPlain(p: string)
    requires IsPlain(p, Normal)
    ensures IsPlain(TrimRight(p), Normal) && (EndMode(p, Normal) == Normal ==> EndMode(TrimRight(p), Normal) == Normal)
    ensures TrimRight(p) <= p && TrailingSpace(TrimRight(p)) == 0
    decreases |p|
  {
    var n := TrailingSpace(p);
    if n > 0 {
      var q, w := p[..|p| - n], p[|p| - n..];
      SpaceIsNeutral(w);
      TakeAndDrop(p, |p| - n);
      DropTails(q, w);
      TrimRightKeepsPlain(q);
    }
  }

  lemma TrimKeepsPlain(p: string)
    requires IsPlain(p, Normal)
    ensures IsPlain(TrimSpace(p), Normal) && (EndMode(p, Normal) == Normal ==> EndMode(TrimSpace(p), Normal) == Normal)
    ensures IsTrimmed(TrimSpace(p))
  {
    TrimLeftKeepsPlain(p);
    TrimRightKeepsPlain(TrimLeft(p));
    PrefixKeepsSpace(TrimLeft(p), TrimSpace(p));
  }

  lemma TrimmedIsFixed(p: string)
    requires IsTrimmed(p)
    ensures TrimSpace(p) == p
  {
  }

  // ---- what a statement is -----------------------------------------------------------------------

  /** A trimmed, non-empty text with no comment and no semicolon outside quotes. */
  predicate IsStatement(p: string) {
    p != "" && IsTrimmed(p) && IsPlain(p, Normal)
  }

  /** A list of statements in which only the last may leave a quote open. */
  predicate AreStatements(out: seq<string>) {
    && (forall k :: 0 <= k < |out| ==> IsStatement(out[k]))
    && (forall k :: 0 <= k < |out| - 1 ==> EndMode(out[k], Normal) == Normal)
  }

  lemma StatementsCons(p: string, out: seq<string>)
    requires IsStatement(p) && AreStatements(out) && (out != [] ==> EndMode(p, Normal) == Normal)
    ensures AreStatements([p] + out)
  {
    var all := [p] + out;
    forall k | 0 <= k < |all|
      ensures IsStatement(all[k]) && (k < |all| - 1 ==> EndMode(all[k], Normal) == Normal)
    {
      assert k > 0 ==> all[k] == out[k - 1];
    }
  }

  lemma {:induction false} StatementsOfSegments(segs: seq<string>)
    requires |segs| > 0 && AreSegments(segs, Normal)
    ensures AreStatements(Statements(segs))
    decreases |segs|
  {
    var part := TrimSpace(segs[0]);
    TrimKeepsPlain(segs[0]);
    if |segs| > 1 {
      StatementsOfSegments(segs[1..]);
    } else {
      assert Statements(segs[1..]) == [];
    }
    if part == "" {
      assert Statements(segs) == Statements(segs[1..]);
    } else {
      StatementsCons(part, Statements(segs[1..]));
    }
  }

  /** Every statement returned is trimmed, non-empty, and has no unquoted ";" or "--". */
  lemma SplitGivesStatements(s: string)
    ensures AreStatements(Split(s))
  {
    SegmentsArePlain(s, Normal);
    StatementsOfSegments(Segments(Lex(s, Normal)));
  }

  lemma StatementsOfOne(p: string)
    requires p != "" && TrimSpace(p) == p
    ensures Statements([p]) == [p]
  {
    assert Statements([p][1..]) == [];
  }

  lemma PrependToEmpty(p: string)
    ensures Prepend(p, [""]) == [p]
  {
    NothingRight(p);
  }

  /** A statement splits into itself. */
  lemma SplitOfStatement(p: string)
    requires IsStatement(p)
    ensures Split(p) == [p]
  {
    PlainIsOneSegment(p, Normal, []);
    NothingRight(Lex(p, Normal));
    PrependToEmpty(p);
    TrimmedIsFixed(p);
    StatementsOfOne(p);
  }

  // ---- round trip --------------------------------------------------------------------------------------

  function Join(out: seq<string>): string {
    if out == [] then ""
    else if |out| == 1 then out[0]
    else out[0] + (";" + Join(out[1..]))
  }

  /** Reading a closed statement and a semicolon splits off that statement. */
  lemma SplitOffStatement(p: string, rest: string)
    requires IsStatement(p) && EndMode(p, Normal) == Normal
    ensures Split(p + (";" + rest)) == [p] + Split(rest)
  {
    var tail := ";" + rest;
    LexAcross(p, tail, Normal);
    assert tail[1..] == rest;
    assert Lex(tail, Normal) == [Semicolon] + Lex(rest, Normal);
    PlainIsOneSegment(p, Normal, Lex(tail, Normal));
    var segs := Segments(Lex(rest, Normal));
    assert Lex(tail, Normal)[1..] == Lex(rest, Normal);
    PrependToBlank(p, segs);
    TrimmedIsFixed(p);
    StatementsOfFirst(p, segs);
  }

  lemma SplitOfNothing()
    ensures Split("") == []
  {
    assert Segments([]) == [""] && TrimSpace("") == "";
    assert Statements([""][1..]) == [];
  }

  lemma StatementsTail(out: seq<string>)
    requires AreStatements(out) && |out| > 1
    ensures AreStatements(out[1..]) && IsStatement(out[0]) && EndMode(out[0], Normal) == Normal
  {
  }

  lemma SplitOfSingle(out: seq<string>)
    requires AreStatements(out) && |out| == 1
    ensures Split(Join(out)) == out
  {
    SplitOfStatement(out[0]);
  }

  lemma SplitOfMore(out: seq<string>)
    requires AreStatements(out) && |out| > 1 && Split(Join(out[1..])) == out[1..]
    ensures Split(Join(out)) == out
  {
    StatementsTail(out);
    SplitOffStatement(out[0], Join(out[1..]));
    assert out == [out[0]] + out[1..];
  }

  lemma {:induction false} SplitOfJoin(out: seq<string>)
    requires AreStatements(out)
    ensures Split(Join(out)) == out
    decreases |out|
  {
    if out == [] {
      SplitOfNothing();
    } else if |out| == 1 {
      SplitOfSingle(out);
    } else {
      StatementsTail(out);
      SplitOfJoin(out[1..]);
      SplitOfMore(out);
    }
  }

  /** Splitting, joining with ";" and splitting again changes nothing, whatever the input. */
  lemma RoundTrip(s: string)
    ensures Split(Join(Split(s))) == Split(s)
  {
    SplitGivesStatements(s);
    SplitOfJoin(Split(s));
  }

  // ---- the literal escaper -----------------------------------------------------------------------------------

  function EscapeBytes(t: string): string {
    if t == "" then ""
    else (if t[0] == '\'' || t[0] == '\\' then ['\\', t[0]] else [t[0]]) + EscapeBytes(t[1..])
  }

  function Literal(t: string): string {
    "'" + EscapeBytes(t) + "'"
  }

  /** Undo the backslash escapes of a literal's inside. */
  function Unescape(s: string): string {
    if s == "" then ""
    else if s[0] == '\\' && |s| > 1 then [s[1]] + Unescape(s[2..])
    else [s[0]] + Unescape(s[1..])
  }

  /** A value as a single-quoted literal, quotes and backslashes escaped with a backslash. */
  method EscStr(s: string) returns (r: string)
    ensures r == Literal(s)
  {
    var out := "'";
    for i := 0 to |s|
      invariant out + EscapeBytes(s[i..]) == "'" + EscapeBytes(s)
    {
      var c := s[i];
      DropTwice(s, i, 1);
      ghost var escaped, rest := if c == '\'' || c == '\\' then ['\\', c] else [c], EscapeBytes(s[i + 1..]);
      Assoc(out, escaped, rest);
      ghost var before := out;
      if c == '\'' || c == '\\' {
        out := out + ['\\'];
      }
      out := out + [c];
      assert out == before + escaped;
    }
    NothingRight(out);
    r := out + "'";
  }

  /** Undoing the escapes inside the literal gives the value back. */
  lemma {:induction false} UnescapeInverts(t: string)
    ensures Unescape(EscapeBytes(t)) == t
    decreases |t|
  {
    if t != "" {
      UnescapeInverts(t[1..]);
      var e := EscapeBytes(t);
      if t[0] == '\'' || t[0] == '\\' {
        assert e[0] == '\\' && e[1] == t[0] && e[2..] == EscapeBytes(t[1..]);
      } else {
        assert e[0] == t[0] && e[1..] == EscapeBytes(t[1..]);
      }
    }
  }

  /** The inside of a literal never leaves the quote; the final quote closes it. */
  lemma {:induction false} LiteralBodyCloses(t: string)
    ensures IsClosed(EscapeBytes(t) + "'", Quoted('\''))
    decreases |t|
  {
    var q := Quoted('\'');
    var p := EscapeBytes(t) + "'";
    if t == "" {
      assert p == "'";
      assert First(p, q).next == Normal && p[1..] == "";
    } else {
      LiteralBodyCloses(t[1..]);
      var r := First(p, q);
      assert p[r.width..] == EscapeBytes(t[1..]) + "'" && r.token.Text? && r.next == q;
    }
  }

  lemma QuoteOpens(body: string)
    requires IsClosed(body, Quoted('\''))
    ensures IsClosed("'" + body, Normal)
  {
    var p := "'" + body;
    assert p[..1] == "'" && p[1..] == body;
  }

  lemma LastByte(s: string, n: nat)
    requires 0 < n <= |s|
    ensures s[|s| - n..][n - 1] == s[|s| - 1]
  {
  }

  lemma LiteralIsTrimmed(t: string)
    ensures Literal(t)[0] == '\'' && Literal(t)[|Literal(t)| - 1] == '\''
    ensures IsTrimmed(Literal(t))
  {
    var n := TrailingSpace(Literal(t));
    LastByte(Literal(t), if n > 0 then n else 1);
  }

  lemma LiteralIsClosed(t: string)
    ensures IsClosed(Literal(t), Normal) && IsStatement(Literal(t))
  {
    LiteralBodyCloses(t);
    QuoteOpens(EscapeBytes(t) + "'");
    Assoc("'", EscapeBytes(t), "'");
    LiteralIsTrimmed(t);
  }

  /** The splitter sees an escaped value as one statement, whatever the value. */
  lemma LiteralIsOpaque(t: string)
    ensures Split(Literal(t)) == [Literal(t)]
    ensures Literal(t)[0] == '\'' && Unescape(Literal(t)[1..|Literal(t)| - 1]) == t
  {
    LiteralIsClosed(t);
    SplitOfStatement(Literal(t));
    UnescapeInverts(t);
    assert Literal(t)[1..|Literal(t)| - 1] == EscapeBytes(t);
  }

  /** Two runs of segments, the last of the first continued by the first of the second. */
  function JoinSegments(a: seq<string>, b: seq<string>): seq<string>
    requires |a| > 0 && |b| > 0
  {
    a[..|a| - 1] + Prepend(a[|a| - 1], b)
  }

  lemma PrependToJoin(x: string, a: seq<string>, b: seq<string>)
    requires |a| > 0 && |b| > 0
    ensures JoinSegments(Prepend(x, a), b) == Prepend(x, JoinSegments(a, b))
  {
    if |a| == 1 {
      PrependTwice(x, a[0], b);
      NothingLeft(Prepend(a[0], b));
    } else {
      assert Prepend(x, a)[..|a| - 1] == [x + a[0]] + a[1..|a| - 1];
    }
  }

  lemma BlankBeforeJoin(a: seq<string>, b: seq<string>)
    requires |a| > 0 && |b| > 0
    ensures JoinSegments([""] + a, b) == [""] + JoinSegments(a, b)
  {
    assert ([""] + a)[..|a|] == [""] + a[..|a| - 1];
  }

  /** What follows some tokens continues their last segment. */
  lemma {:induction false} SegmentsOfBoth(ts: seq<Token>, us: seq<Token>)
    ensures Segments(ts + us) == JoinSegments(Segments(ts), Segments(us))
    decreases |ts|
  {
    if ts == [] {
      NothingLeft(us);
      PrependNothing(Segments(us));
      NothingLeft(Segments(us));
    } else {
      var rest := ts[1..];
      assert (ts + us)[0] == ts[0] && (ts + us)[1..] == rest + us;
      SegmentsOfBoth(rest, us);
      match ts[0]
      case Text(x) => PrependToJoin(x, Segments(rest), Segments(us));
      case Dropped(_) =>
      case Semicolon => BlankBeforeJoin(Segments(rest), Segments(us));
    }
  }

  /**
    * An escaped value embedded in a query cannot change how the rest is read: whatever comes before it, as long
    * as that ends outside quotes and comments, the text after it is lexed as if it stood alone, and the value
    * only continues the statement it stands in. The value must touch no other single quote.
    */
  lemma EmbeddedLiteralIsOpaque(before: string, t: string, after: string)
    requires EndMode(before, Normal) == Normal && (before != "" ==> before[|before| - 1] != '\'')
    requires after != "" ==> after[0] != '\''
    ensures Lex(before + (Literal(t) + after), Normal)
            == Lex(before, Normal) + (Lex(Literal(t), Normal) + Lex(after, Normal))
    ensures Segments(Lex(before + (Literal(t) + after), Normal))
            == JoinSegments(Segments(Lex(before, Normal)), Prepend(Literal(t), Segments(Lex(after, Normal))))
  {
    var q, rest := Literal(t), Lex(after, Normal);
    LiteralIsClosed(t);
    LiteralIsTrimmed(t);
    LexAcross(q, after, Normal);
    LexAcross(before, q + after, Normal);
    SegmentsOfBoth(Lex(before, Normal), Lex(q, Normal) + rest);
    PlainIsOneSegment(q, Normal, rest);
  }

  // ---- white space, character by character -----------------------------------------------------------------

  const ASCII_SPACES: set<char> := {'\t', '\n', '\U{000B}', '\U{000C}', '\r', ' '}

  /** The last bytes of the white-space characters U+2000 to U+200A, U+2028, U+2029 and U+202F. */
  const GENERAL_SPACES: set<char> := {
    '\U{0080}', '\U{0081}', '\U{0082}', '\U{0083}', '\U{0084}', '\U{0085}', '\U{0086}', '\U{0087}', '\U{0088}',
    '\U{0089}', '\U{008A}', '\U{00A8}', '\U{00A9}', '\U{00AF}'}

  /** The Unicode white-space characters, each as its UTF-8 bytes. */
  const SPACES: set<string> :=
    (set c | c in ASCII_SPACES :: [c])
    + {"\U{00C2}\U{0085}", "\U{00C2}\U{00A0}", "\U{00E1}\U{009A}\U{0080}"}
    + (set c | c in GENERAL_SPACES :: ['\U{00E2}', '\U{0080}', c])
    + {"\U{00E2}\U{0081}\U{009F}", "\U{00E3}\U{0080}\U{0080}"}

  predicate AreSpaces(ws: seq<string>) {
    forall i :: 0 <= i < |ws| ==> ws[i] in SPACES
  }

  lemma SpaceIsListed(w: string)
    ensures IsSpace(w) <==> w in SPACES
  {
    if |w| == 1 {
      assert w == [w[0]];
    } else if |w| == 2 {
      assert w == [w[0], w[1]];
    } else if |w| == 3 {
      WideSpaceIsListed(w[0], w[1], w[2]);
      assert w == [w[0], w[1], w[2]];
    }
  }

  lemma WideSpaceIsListed(a: char, b: char, c: char)
    ensures IsSpace([a, b, c]) <==> [a, b, c] in SPACES
  {
  }

  /** No white-space character begins another, so text starts with one of them in one way only. */
  lemma StartsWithSpace(s: string, w: string)
    requires w in SPACES && w <= s
    ensures LeadingSpace(s) == |w|
  {
    SpaceIsListed(w);
    assert s[..|w|] == w;
    assert s[..1][0] == s[0] == w[0];
  }

  lemma EndsWithSpace(s: string, w: string)
    requires w in SPACES && |w| <= |s| && s[|s| - |w|..] == w
    ensures TrailingSpace(s) > 0
  {
    SpaceIsListed(w);
    var n := |w|;
    assert IsSpace(s[|s| - n..]) && 1 <= n <= 3;
  }

  lemma ConcatNext(ws: seq<string>, w: string)
    ensures Concat([w] + ws) == w + Concat(ws)
  {
    assert ([w] + ws)[1..] == ws;
  }

  lemma {:induction false} ConcatBoth(us: seq<string>, vs: seq<string>)
    ensures Concat(us + vs) == Concat(us) + Concat(vs)
    decreases |us|
  {
    if us == [] {
      NothingLeft(vs);
      NothingLeft(Concat(vs));
    } else {
      ConcatBoth(us[1..], vs);
      assert us + vs == [us[0]] + (us[1..] + vs);
      ConcatNext(us[1..] + vs, us[0]);
      Assoc(us[0], Concat(us[1..]), Concat(vs));
    }
  }

  lemma {:induction false} TrimLeftDropsSpaces(s: string) returns (ws: seq<string>)
    ensures AreSpaces(ws) && s == Concat(ws) + TrimLeft(s) && LeadingSpace(TrimLeft(s)) == 0
    decreases |s|
  {
    var n := LeadingSpace(s);
    if n == 0 {
      ws := [];
      NothingLeft(s);
    } else {
      var rest := TrimLeftDropsSpaces(s[n..]);
      SpaceIsListed(s[..n]);
      ws := [s[..n]] + rest;
      ConcatNext(rest, s[..n]);
      TakeAndDrop(s, n);
      Assoc(s[..n], Concat(rest), TrimLeft(s));
    }
  }

  lemma {:induction false} TrimRightDropsSpaces(s: string) returns (ws: seq<string>)
    ensures AreSpaces(ws) && s == TrimRight(s) + Concat(ws) && TrailingSpace(TrimRight(s)) == 0
    ensures TrimRight(s) <= s
    decreases |s|
  {
    var n := TrailingSpace(s);
    if n == 0 {
      ws := [];
      NothingRight(s);
    } else {
      var q, w := s[..|s| - n], s[|s| - n..];
      var rest := TrimRightDropsSpaces(q);
      SpaceIsListed(w);
      ws := rest + [w];
      ConcatBoth(rest, [w]);
      ConcatNext([], w);
      NothingRight(w);
      TakeAndDrop(s, |s| - n);
      Assoc(TrimRight(s), Concat(rest), w);
    }
  }

  /** No white-space character stands at either end. */
  ghost predicate NoSpaceAround(p: string) {
    forall w :: w in SPACES ==> !StartsWith(p, w) && !EndsWith(p, w)
  }

  predicate StartsWith(p: string, w: string) {
    |w| <= |p| && p[..|w|] == w
  }

  predicate EndsWith(p: string, w: string) {
    |w| <= |p| && p[|p| - |w|..] == w
  }

  /** Trimming takes away white space at both ends, all of it and nothing else. */
  lemma TrimDropsSpacesExactly(s: string) returns (us: seq<string>, vs: seq<string>)
    ensures AreSpaces(us) && AreSpaces(vs) && s == Concat(us) + (TrimSpace(s) + Concat(vs))
    ensures NoSpaceAround(TrimSpace(s))
  {
    us := TrimLeftDropsSpaces(s);
    vs := TrimRightDropsSpaces(TrimLeft(s));
    PrefixKeepsSpace(TrimLeft(s), TrimSpace(s));
    TrimmedEnds(TrimSpace(s));
  }

  /** "Trimmed", character by character. */
  lemma TrimmedEnds(p: string)
    requires IsTrimmed(p)
    ensures NoSpaceAround(p)
  {
    forall w | w in SPACES
      ensures !StartsWith(p, w) && !EndsWith(p, w)
    {
      SpaceIsListed(w);
      if StartsWith(p, w) {
        StartsWithSpace(p, w);
      } else if EndsWith(p, w) {
        EndsWithSpace(p, w);
      }
    }
  }

  lemma {:induction false} SpacesTrimToNothing(ws: seq<string>)
    requires AreSpaces(ws)
    ensures TrimLeft(Concat(ws)) == ""
    decreases |ws|
  {
    if ws != [] {
      SpaceIsListed(ws[0]);
      StartsWithSpace(Concat(ws), ws[0]);
      assert Concat(ws)[|ws[0]|..] == Concat(ws[1..]);
      SpacesTrimToNothing(ws[1..]);
    }
  }

  /** White space throughout. */
  ghost predicate IsBlank(s: string) {
    exists ws :: AreSpaces(ws) && Concat(ws) == s
  }

  /** A text is trimmed to nothing exactly when it is white space throughout. */
  lemma BlankExactly(s: string)
    ensures TrimSpace(s) == "" <==> IsBlank(s)
  {
    if TrimSpace(s) == "" {
      var us, vs := TrimDropsSpacesExactly(s);
      NothingLeft(Concat(vs));
      ConcatBoth(us, vs);
      assert AreSpaces(us + vs);
    }
    if ws :| AreSpaces(ws) && Concat(ws) == s {
      SpacesTrimToNothing(ws);
    }
  }

  /** No statement is empty, and none starts or ends with a white-space character. */
  lemma StatementsShowNoSpaceAround(s: string, p: string)
    requires p in Split(s)
    ensures p != "" && NoSpaceAround(p)
  {
    SplitGivesStatements(s);
    var k :| 0 <= k < |Split(s)| && Split(s)[k] == p;
    TrimmedEnds(p);
  }

  // ---- which semicolons split ---------------------------------------------------------------------------------

  lemma {:induction false} StatementsOfAll(a: seq<string>, b: seq<string>)
    ensures Statements(a + b) == Statements(a) + Statements(b)
    decreases |a|
  {
    if a == [] {
      NothingLeft(b);
      NothingLeft(Statements(b));
    } else {
      var x, rest := a[0], a[1..];
      StatementsOfAll(rest, b);
      assert a == [x] + rest;
      Assoc([x], rest, b);
      StatementsOfFirst(x, rest + b);
      StatementsOfFirst(x, rest);
      Assoc(Statements([x]), Statements(rest), Statements(b));
    }
  }

  /** A semicolon after text that ends outside quotes and comments splits there, and only there. */
  lemma SplitAtSemicolon(a: string, b: string)
    requires EndMode(a, Normal) == Normal
    ensures Split(a + (";" + b)) == Split(a) + Split(b)
  {
    var tail := ";" + b;
    LexAcross(a, tail, Normal);
    assert tail[1..] == b;
    assert Lex(tail, Normal) == [Semicolon] + Lex(b, Normal);
    SegmentsOfBoth(Lex(a, Normal), Lex(tail, Normal));
    assert Lex(tail, Normal)[1..] == Lex(b, Normal);
    JoinAtBlank(Segments(Lex(a, Normal)), Segments(Lex(b, Normal)));
    StatementsOfAll(Segments(Lex(a, Normal)), Segments(Lex(b, Normal)));
  }

  lemma JoinAtBlank(a: seq<string>, b: seq<string>)
    requires |a| > 0 && |b| > 0
    ensures JoinSegments(a, [""] + b) == a + b
  {
    PrependToBlank(a[|a| - 1], b);
    SplitLast(a);
    Assoc(a[..|a| - 1], [a[|a| - 1]], b);
  }

  /** Without a quote character or "--", every semicolon splits. */
  lemma UnquotedSemicolonSplits(a: string, b: string)
    requires forall i :: 0 <= i < |a| ==> a[i] != '\'' && a[i] != '"' && a[i] != '`'
    requires forall i :: 0 <= i < |a| - 1 ==> a[i] != '-' || a[i + 1] != '-'
    ensures Split(a + (";" + b)) == Split(a) + Split(b)
  {
    StaysUnquoted(a);
    SplitAtSemicolon(a, b);
  }

  lemma {:induction false} StaysUnquoted(a: string)
    requires forall i :: 0 <= i < |a| ==> a[i] != '\'' && a[i] != '"' && a[i] != '`'
    requires forall i :: 0 <= i < |a| - 1 ==> a[i] != '-' || a[i + 1] != '-'
    ensures EndMode(a, Normal) == Normal
    decreases |a|
  {
    if a != "" {
      assert First(a, Normal).width == 1 && First(a, Normal).next == Normal;
      StaysUnquoted(a[1..]);
    }
  }

  /** Between two single quotes, double quotes or backquotes nothing splits and nothing is a comment. */
  lemma QuotedIsOneStatement(quote: char, w: string)
    requires quote in {'\'', '"', '`'} && forall i :: 0 <= i < |w| ==> w[i] != quote && w[i] != '\\'
    ensures Split([quote] + (w + [quote])) == [[quote] + (w + [quote])]
  {
    var p := [quote] + (w + [quote]);
    QuotedBodyCloses(quote, w);
    assert p[..1] == [quote] && p[1..] == w + [quote];
    assert First(p, Normal) == Step(1, Text([quote]), Quoted(quote));
    QuotedIsTrimmed(p, quote);
    SplitOfStatement(p);
  }

  lemma QuotedIsTrimmed(p: string, quote: char)
    requires p != "" && IsQuote(quote) && p[0] == quote && p[|p| - 1] == quote
    ensures IsTrimmed(p)
  {
    var n := TrailingSpace(p);
    LastByte(p, if n > 0 then n else 1);
  }

  lemma {:induction false} QuotedBodyCloses(quote: char, w: string)
    requires IsQuote(quote) && forall i :: 0 <= i < |w| ==> w[i] != quote && w[i] != '\\'
    ensures IsClosed(w + [quote], Quoted(quote))
    decreases |w|
  {
    var p := w + [quote];
    if w == "" {
      assert First(p, Quoted(quote)).next == Normal && p[1..] == "";
    } else {
      QuotedBodyCloses(quote, w[1..]);
      assert p[1..] == w[1..] + [quote];
      assert First(p, Quoted(quote)) == Step(1, Text(p[..1]), Quoted(quote));
    }
  }
}
