/** The migration-file splitter of server/src/migrations.rs. */
module SqlStatements {
  import opened Text

  // ----- Two plain passes -----

  /** The text after the current line. */
  function AfterLine(s: string): string {
    if s == [] then [] else if s[0] == '\n' then s[1..] else AfterLine(s[1..])
  }

  lemma {:induction false} AfterLineShrinks(s: string)
    ensures |AfterLine(s)| <= |s|
  {
    if s != [] && s[0] != '\n' {
      AfterLineShrinks(s[1..]);
    }
  }

  predicate OpensComment(s: string, quoted: bool) {
    !quoted && |s| >= 2 && s[0] == '-' && s[1] == '-'
  }

  function Toggle(quoted: bool, c: char): bool {
    if c == '\'' then !quoted else quoted
  }

  /** First pass: every `--` comment outside a literal becomes a line break. */
  function Strip(s: string, quoted: bool): string
    decreases |s|
  {
    if s == [] then []
    else if OpensComment(s, quoted) then
      AfterLineShrinks(s[1..]);
      "\n" + Strip(AfterLine(s[1..]), quoted)
    else [s[0]] + Strip(s[1..], Toggle(quoted, s[0]))
  }

  /** Second pass: cut at semicolons outside literals. */
  function Pieces(s: string, quoted: bool): (pieces: seq<string>)
    ensures |pieces| > 0
  {
    if s == [] then [""]
    else if s[0] == ';' && !quoted then [""] + Pieces(s[1..], quoted)
    else
      var rest := Pieces(s[1..], Toggle(quoted, s[0]));
      [[s[0]] + rest[0]] + rest[1..]
  }

  /** Trim the pieces and drop the empty ones. */
  function Keep(pieces: seq<string>): seq<string> {
    if pieces == [] then [] else Pushed(pieces[0]) + Keep(pieces[1..])
  }

  function Pushed(current: string): seq<string> {
    if Trim(current) != [] then [Trim(current)] else []
  }

  function Split(sql: string): seq<string> {
    Keep(Pieces(Strip(sql, false), false))
  }

  // ----- The splitter's loop -----

  /** The loop's future: what is pushed from here on. */
  function SplitFrom(s: string, quoted: bool, current: string): seq<string>
    decreases |s|
  {
    if s == [] then Pushed(current)
    else if OpensComment(s, quoted) then
      AfterLineShrinks(s[1..]);
      SplitFrom(AfterLine(s[1..]), quoted, current + "\n")
    else if s[0] == ';' && !quoted then Pushed(current) + SplitFrom(s[1..], quoted, "")
    else SplitFrom(s[1..], Toggle(quoted, s[0]), current + [s[0]])
  }

  method Statements(sql: string) returns (statements: seq<string>)
    ensures statements == Split(sql)
  {
    statements := [];
    var current := "";
    var inString := false;
    var i := 0;
    while i < |sql|
      invariant 0 <= i <= |sql|
      invariant statements + SplitFrom(sql[i..], inString, current) == SplitFrom(sql, false, "")
    {
      var character := sql[i];
      ghost var rest := sql[i..];
      i := i + 1;
      assert rest[1..] == sql[i..];
      if !inString && character == '-' && i < |sql| && sql[i] == '-' {
        i := SkipLine(sql, i);
        current := current + "\n";
        continue;
      }
      if character == '\'' {
        inString := !inString;
      }
      if character == ';' && !inString {
        statements := statements + Pushed(current);
        current := "";
        continue;
      }
      current := current + [character];
    }
    statements := statements + Pushed(current);
    TwoPasses(sql, false, "");
    PrependEmpty(Pieces(Strip(sql, false), false));
  }

  /** Consume characters up to and including the next line break. */
  method SkipLine(sql: string, from: nat) returns (i: nat)
    requires from <= |sql|
    ensures from <= i <= |sql| && (from < |sql| ==> from < i)
    ensures sql[i..] == AfterLine(sql[from..])
  {
    i := from;
    while i < |sql|
      invariant from <= i <= |sql|
      invariant AfterLine(sql[i..]) == AfterLine(sql[from..])
      decreases |sql| - i
    {
      i := i + 1;
      assert sql[i - 1..][1..] == sql[i..];
      if sql[i - 1] == '\n' {
        return;
      }
    }
  }

  function Prepend(current: string, pieces: seq<string>): seq<string>
    requires |pieces| > 0
  {
    [current + pieces[0]] + pieces[1..]
  }

  lemma PrependEmpty(pieces: seq<string>)
    requires |pieces| > 0
    ensures Prepend("", pieces) == pieces
  {
    assert "" + pieces[0] == pieces[0];
  }

  lemma PrependToCut(current: string, pieces: seq<string>)
    ensures Prepend(current, [""] + pieces) == [current] + pieces
    ensures ([current] + pieces)[1..] == pieces
  {
    assert current + "" == current;
  }

  /** One pass is the two passes. */
  lemma {:induction false} TwoPasses(s: string, quoted: bool, current: string)
    ensures SplitFrom(s, quoted, current) == Keep(Prepend(current, Pieces(Strip(s, quoted), quoted)))
    decreases |s|
  {
    if s == [] {
      PrependToCut(current, []);
      assert [""] + [] == [""] && [current] + [] == [current];
    } else if OpensComment(s, quoted) {
      AfterLineShrinks(s[1..]);
      var after := AfterLine(s[1..]);
      TwoPasses(after, quoted, current + "\n");
      StepPiece('\n', Strip(after, quoted), quoted, current);
    } else if s[0] == ';' && !quoted {
      TwoPasses(s[1..], quoted, "");
      var t := Strip(s[1..], quoted);
      assert ([s[0]] + t)[1..] == t;
      assert Pieces([s[0]] + t, quoted) == [""] + Pieces(t, quoted);
      PrependToCut(current, Pieces(t, quoted));
      PrependEmpty(Pieces(t, quoted));
    } else {
      TwoPasses(s[1..], Toggle(quoted, s[0]), current + [s[0]]);
      StepPiece(s[0], Strip(s[1..], Toggle(quoted, s[0])), quoted, current);
    }
  }

  lemma StepPiece(c: char, t: string, quoted: bool, current: string)
    requires !(c == ';' && !quoted)
    ensures Prepend(current, Pieces([c] + t, quoted)) == Prepend(current + [c], Pieces(t, Toggle(quoted, c)))
  {
    assert ([c] + t)[1..] == t;
    var rest := Pieces(t, Toggle(quoted, c));
    assert current + ([c] + rest[0]) == current + [c] + rest[0];
  }

  // ----- Text that either pass leaves alone -----

  /** Quotation after reading `s`. */
  function EndQuoted(s: string, quoted: bool): bool {
    if s == [] then quoted else EndQuoted(s[1..], Toggle(quoted, s[0]))
  }

  predicate NoComment(s: string, quoted: bool) {
    s == [] || (!OpensComment(s, quoted) && NoComment(s[1..], Toggle(quoted, s[0])))
  }

  predicate NoCut(s: string, quoted: bool) {
    s == [] || (!(s[0] == ';' && !quoted) && NoCut(s[1..], Toggle(quoted, s[0])))
  }

  lemma StripChar(c: char, r: string, quoted: bool)
    requires !OpensComment([c] + r, quoted)
    ensures Strip([c] + r, quoted) == [c] + Strip(r, Toggle(quoted, c))
  {
    assert ([c] + r)[1..] == r;
  }

  lemma {:induction false} StripLeaves(p: string, r: string, quoted: bool)
    requires NoComment(p, quoted)
    requires r == [] || r[0] != '-' || p == [] || p[|p| - 1] != '-'
    ensures Strip(p + r, quoted) == p + Strip(r, EndQuoted(p, quoted))
  {
    if p == [] {
      assert p + r == r;
      assert p + Strip(r, quoted) == Strip(r, quoted);
    } else {
      var (head, tail) := ([p[0]], p[1..]);
      assert p == head + tail;
      Associates(head, tail, r);
      StripLeaves(tail, r, Toggle(quoted, p[0]));
      StripChar(p[0], tail + r, quoted);
      Associates(head, tail, Strip(r, EndQuoted(p, quoted)));
    }
  }

  lemma {:induction false} PiecesLeave(p: string, r: string, quoted: bool)
    requires NoCut(p, quoted)
    ensures Pieces(p + r, quoted) == Prepend(p, Pieces(r, EndQuoted(p, quoted)))
  {
    var rest := Pieces(r, EndQuoted(p, quoted));
    if p == [] {
      assert p + r == r && [] + rest[0] == rest[0];
    } else {
      assert (p + r)[1..] == p[1..] + r;
      PiecesLeave(p[1..], r, Toggle(quoted, p[0]));
      assert [p[0]] + (p[1..] + rest[0]) == p + rest[0];
    }
  }

  /** What the first pass leaves has no comment in it. */
  lemma {:induction false} StripClears(s: string, quoted: bool)
    ensures NoComment(Strip(s, quoted), quoted)
    ensures Strip(s, quoted) != [] ==>
              s != [] && (Strip(s, quoted)[0] == s[0] || Strip(s, quoted)[0] == '\n')
    ensures Strip(s, quoted) != [] && OpensComment(s, quoted) ==> Strip(s, quoted)[0] == '\n'
    decreases |s|
  {
    if s != [] {
      var t := Strip(s, quoted);
      if OpensComment(s, quoted) {
        AfterLineShrinks(s[1..]);
        StripClears(AfterLine(s[1..]), quoted);
        assert t[1..] == Strip(AfterLine(s[1..]), quoted);
      } else {
        StripClears(s[1..], Toggle(quoted, s[0]));
        assert t[1..] == Strip(s[1..], Toggle(quoted, s[0]));
      }
    }
  }

  // ----- Every statement the splitter returns is clean -----

  predicate Trimmed(s: string) {
    s != [] && !IsSpace(s[0]) && !IsSpace(s[|s| - 1])
  }

  predicate CleanPiece(p: string) {
    NoComment(p, false) && NoCut(p, false)
  }

  /** Clean, and every piece but the last closes its literals. */
  predicate CleanPieces(ps: seq<string>) {
    && (forall i :: 0 <= i < |ps| ==> CleanPiece(ps[i]))
    && (forall i :: 0 <= i < |ps| - 1 ==> !EndQuoted(ps[i], false))
  }

  lemma {:induction false} PiecesClean(s: string, quoted: bool)
    requires NoComment(s, quoted)
    ensures var ps := Pieces(s, quoted);
            && NoComment(ps[0], quoted) && NoCut(ps[0], quoted)
            && (|ps| > 1 ==> !EndQuoted(ps[0], quoted))
            && CleanPieces(ps[1..])
            && (ps[0] != [] ==> s != [] && ps[0][0] == s[0])
  {
    if s != [] {
      if s[0] == ';' && !quoted {
        PiecesClean(s[1..], quoted);
        var rest := Pieces(s[1..], quoted);
        assert Pieces(s, quoted)[1..] == rest;
        assert forall i :: 1 <= i < |rest| ==> rest[i] == rest[1..][i - 1];
      } else {
        var next := Toggle(quoted, s[0]);
        PiecesClean(s[1..], next);
        var p := Pieces(s, quoted)[0];
        assert p[1..] == Pieces(s[1..], next)[0];
      }
    }
  }

  lemma {:induction false} TrimStartClean(p: string)
    ensures EndQuoted(TrimStart(p), false) == EndQuoted(p, false)
    ensures CleanPiece(p) ==> CleanPiece(TrimStart(p))
  {
    if p != [] && IsSpace(p[0]) {
      TrimStartClean(p[1..]);
    }
  }

  lemma {:induction false} DropLast(p: string, quoted: bool)
    requires p != []
    ensures EndQuoted(p, quoted) == Toggle(EndQuoted(p[..|p| - 1], quoted), p[|p| - 1])
    ensures NoComment(p, quoted) ==> NoComment(p[..|p| - 1], quoted)
    ensures NoCut(p, quoted) ==> NoCut(p[..|p| - 1], quoted)
  {
    var short := p[..|p| - 1];
    if |p| > 1 {
      assert short[1..] == p[1..][..|p[1..]| - 1];
      DropLast(p[1..], Toggle(quoted, p[0]));
    }
  }

  lemma {:induction false} TrimEndClean(p: string)
    ensures EndQuoted(TrimEnd(p), false) == EndQuoted(p, false)
    ensures CleanPiece(p) ==> CleanPiece(TrimEnd(p))
  {
    if p != [] && IsSpace(p[|p| - 1]) {
      DropLast(p, false);
      TrimEndClean(p[..|p| - 1]);
    }
  }

  predicate CleanStatements(ps: seq<string>) {
    CleanPieces(ps) && forall i :: 0 <= i < |ps| ==> Trimmed(ps[i])
  }

  lemma {:induction false} KeepClean(ps: seq<string>)
    requires CleanPieces(ps)
    ensures CleanStatements(Keep(ps))
  {
    hide NoComment, NoCut, EndQuoted, TrimStart, TrimEnd;
    if ps != [] {
      assert forall i :: 0 <= i < |ps[1..]| ==> ps[1..][i] == ps[i + 1];
      KeepClean(ps[1..]);
      TrimStartClean(ps[0]);
      TrimEndClean(TrimStart(ps[0]));
      TrimEnds(ps[0]);
      if |ps| == 1 {
        assert ps[1..] == [];
      }
    }
  }

  /** No statement has a comment, a cut or an end in it; only the last may leave
      a literal open. */
  lemma StatementsAreClean(sql: string)
    ensures CleanStatements(Split(sql))
  {
    StripClears(sql, false);
    PiecesClean(Strip(sql, false), false);
    var ps := Pieces(Strip(sql, false), false);
    assert forall i :: 1 <= i < |ps| ==> ps[i] == ps[1..][i - 1];
    KeepClean(ps);
  }

  // ----- Splitting is idempotent -----

  function Rejoin(ps: seq<string>): string {
    if ps == [] then "" else if |ps| == 1 then ps[0] else ps[0] + (";" + Rejoin(ps[1..]))
  }

  lemma {:induction false} CleanStatementsSplit(ps: seq<string>)
    requires CleanStatements(ps)
    ensures Split(Rejoin(ps)) == ps
  {
    if |ps| == 1 {
      StripLeaves(ps[0], "", false);
      PiecesLeave(ps[0], "", false);
      assert ps[0] + "" == ps[0];
      assert Pieces(ps[0], false) == [ps[0]];
      TrimmedIsFixed(ps[0]);
      assert Keep([ps[0]]) == [ps[0]] + Keep([]);
    } else if |ps| > 1 {
      var (p, rest) := (ps[0], Rejoin(ps[1..]));
      assert forall i :: 0 <= i < |ps[1..]| ==> ps[1..][i] == ps[i + 1];
      CleanStatementsSplit(ps[1..]);
      FirstStatement(p, rest);
      assert ps == [p] + ps[1..];
    }
  }

  /** A clean, closed statement in front of any text is split off as itself. */
  lemma FirstStatement(p: string, rest: string)
    requires CleanPiece(p) && Trimmed(p) && !EndQuoted(p, false)
    ensures Split(p + (";" + rest)) == [p] + Split(rest)
  {
    StripLeaves(p, ";" + rest, false);
    assert (";" + rest)[1..] == rest;
    assert Strip(";" + rest, false) == ";" + Strip(rest, false);
    var t := Strip(rest, false);
    assert (";" + t)[1..] == t;
    PiecesLeave(p, ";" + t, false);
    assert Pieces(";" + t, false) == [""] + Pieces(t, false);
    PrependToCut(p, Pieces(t, false));
    TrimmedIsFixed(p);
  }

  /** Joining a file's statements with semicolons and splitting again returns
      the same statements, for every file. */
  lemma SplitIsIdempotent(sql: string)
    ensures Split(Rejoin(Split(sql))) == Split(sql)
  {
    StatementsAreClean(sql);
    CleanStatementsSplit(Split(sql));
  }

  // ----- Scripts written from tokens -----

  /** SQL as an author thinks of it: code, literals and comments. */
  datatype Token = Code(text: string) | Literal(content: string) | Comment(text: string)

  predicate PlainCode(s: string) {
    && (forall i :: 0 <= i < |s| ==> s[i] != '\'' && s[i] != ';')
    && (forall i :: 0 < i < |s| ==> !(s[i - 1] == '-' && s[i] == '-'))
    && (s != [] ==> s[|s| - 1] != '-')
  }

  predicate ValidToken(t: Token) {
    match t
    case Code(text) => PlainCode(text)
    case Literal(_) => true
    case Comment(text) => '\n' !in text
  }

  /** A literal's quotes are doubled. */
  function Doubled(s: string): string {
    if s == [] then [] else (if s[0] == '\'' then "''" else [s[0]]) + Doubled(s[1..])
  }

  function Written(t: Token): string {
    match t
    case Code(text) => text
    case Literal(content) => "'" + Doubled(content) + "'"
    case Comment(text) => "--" + text + "\n"
  }

  function WithoutComment(t: Token): string {
    if t.Comment? then "\n" else Written(t)
  }

  function WrittenAll(ts: seq<Token>): string {
    if ts == [] then "" else Written(ts[0]) + WrittenAll(ts[1..])
  }

  function MeaningAll(ts: seq<Token>): string {
    if ts == [] then "" else WithoutComment(ts[0]) + MeaningAll(ts[1..])
  }

  function Script(statements: seq<seq<Token>>): string {
    if statements == [] then "" else WrittenAll(statements[0]) + (";" + Script(statements[1..]))
  }

  function Meanings(statements: seq<seq<Token>>): seq<string> {
    if statements == [] then [] else [MeaningAll(statements[0])] + Meanings(statements[1..])
  }

  lemma {:induction false} CodeIsClean(s: string)
    requires PlainCode(s)
    ensures NoComment(s, false) && NoCut(s, false) && !EndQuoted(s, false)
  {
    if s != [] {
      assert forall i :: 0 <= i < |s[1..]| ==> s[1..][i] == s[i + 1];
      CodeIsClean(s[1..]);
    }
  }

  lemma {:induction false} LiteralIsClean(content: string)
    ensures var s := Doubled(content) + "'";
            NoComment(s, true) && NoCut(s, true) && !EndQuoted(s, true)
  {
    if content != [] {
      LiteralIsClean(content[1..]);
      var (s, rest) := (Doubled(content) + "'", Doubled(content[1..]) + "'");
      if content[0] == '\'' {
        assert s[1..] == "'" + rest && s[2..] == rest;
        assert ("'" + rest)[1..] == rest;
      } else {
        assert s[1..] == rest;
      }
    }
  }

  lemma TokenIsClean(t: Token)
    requires ValidToken(t)
    ensures var s := WithoutComment(t);
            NoComment(s, false) && NoCut(s, false) && !EndQuoted(s, false) && (s != [] ==> s[|s| - 1] != '-')
  {
    match t
    case Code(text) => CodeIsClean(text);
    case Literal(content) =>
      LiteralIsClean(content);
      assert Written(t)[1..] == Doubled(content) + "'";
    case Comment(_) =>
  }

  lemma {:induction false} CommentEnds(text: string, r: string)
    requires '\n' !in text
    ensures AfterLine(text + "\n" + r) == r
  {
    var s := text + "\n" + r;
    if text != [] {
      assert s[1..] == text[1..] + "\n" + r;
      CommentEnds(text[1..], r);
    } else {
      assert s[1..] == r;
    }
  }

  lemma StripToken(t: Token, r: string)
    requires ValidToken(t)
    ensures Strip(Written(t) + r, false) == WithoutComment(t) + Strip(r, false)
  {
    if t.Comment? {
      var s := Written(t) + r;
      assert OpensComment(s, false);
      assert s[1..] == ("-" + t.text) + "\n" + r;
      CommentEnds("-" + t.text, r);
    } else {
      TokenIsClean(t);
      StripLeaves(Written(t), r, false);
    }
  }

  lemma {:induction false} StripTokens(ts: seq<Token>, r: string)
    requires forall i :: 0 <= i < |ts| ==> ValidToken(ts[i])
    ensures Strip(WrittenAll(ts) + r, false) == MeaningAll(ts) + Strip(r, false)
  {
    if ts == [] {
      assert "" + r == r && "" + Strip(r, false) == Strip(r, false);
    } else {
      var rest := WrittenAll(ts[1..]);
      StripTokens(ts[1..], r);
      Associates(Written(ts[0]), rest, r);
      StripToken(ts[0], rest + r);
      Associates(WithoutComment(ts[0]), MeaningAll(ts[1..]), Strip(r, false));
    }
  }

  lemma {:induction false} PiecesOfTokens(ts: seq<Token>, r: string)
    requires forall i :: 0 <= i < |ts| ==> ValidToken(ts[i])
    ensures Pieces(MeaningAll(ts) + (";" + r), false) == [MeaningAll(ts)] + Pieces(r, false)
  {
    if ts == [] {
      assert "" + (";" + r) == ";" + r && (";" + r)[1..] == r;
    } else {
      PiecesOfTokens(ts[1..], r);
      var first := WithoutComment(ts[0]);
      assert MeaningAll(ts) + (";" + r) == first + (MeaningAll(ts[1..]) + (";" + r));
      TokenIsClean(ts[0]);
      PiecesLeave(first, MeaningAll(ts[1..]) + (";" + r), false);
    }
  }

  lemma {:induction false} ScriptPieces(statements: seq<seq<Token>>)
    requires forall i, j :: 0 <= i < |statements| && 0 <= j < |statements[i]| ==> ValidToken(statements[i][j])
    ensures Pieces(Strip(Script(statements), false), false) == Meanings(statements) + [""]
  {
    if statements != [] {
      var rest := Script(statements[1..]);
      ScriptPieces(statements[1..]);
      StripTokens(statements[0], ";" + rest);
      assert (";" + rest)[1..] == rest;
      assert Strip(";" + rest, false) == ";" + Strip(rest, false);
      PiecesOfTokens(statements[0], Strip(rest, false));
    }
  }

  /** A script printed from tokens is cut back into exactly its statements:
      comments gone, semicolons and dashes inside literals kept. */
  lemma ScriptsSplitIntoStatements(statements: seq<seq<Token>>)
    requires forall i, j :: 0 <= i < |statements| && 0 <= j < |statements[i]| ==> ValidToken(statements[i][j])
    ensures Split(Script(statements)) == Keep(Meanings(statements))
  {
    ScriptPieces(statements);
    KeepEmpty(Meanings(statements));
  }

  lemma {:induction false} KeepEmpty(ps: seq<string>)
    ensures Keep(ps + [""]) == Keep(ps)
  {
    if ps == [] {
      assert Keep([""]) == Pushed("") + Keep([]);
    } else {
      assert (ps + [""])[1..] == ps[1..] + [""];
      KeepEmpty(ps[1..]);
    }
  }
}
