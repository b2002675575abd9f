/** The S-expression slicers of the PCB scripts: `children` of
    hardware/pcb-p4/import_candidate_parts.py and `block` of build_starter.py. */
module SExpressions {
  import opened Text

  // ----- One character of each scanner -----

  /** `start` is 0 until the first child opens. */
  datatype Scan = Scan(depth: int, quoted: bool, escape: bool, start: nat, result: seq<string>)

  const FRESH := Scan(0, false, false, 0, [])

  function Step(st: Scan, s: string, i: nat): Scan
    requires i < |s|
  {
    var c := s[i];
    if st.escape then st.(escape := false)
    else if st.quoted && c == '\\' then st.(escape := true)
    else if c == '"' then st.(quoted := !st.quoted)
    else if st.quoted then st
    else if c == '(' then
      if st.depth == 1 then st.(depth := 2, start := i) else st.(depth := st.depth + 1)
    else if c == ')' then
      if st.depth == 2 then st.(depth := 1, result := st.result + [Slice(s, st.start, i + 1)])
      else st.(depth := st.depth - 1)
    else st
  }

  /** Python's `s[from:until]` for an end inside the string. */
  function Slice(s: string, from: nat, until: nat): string
    requires until <= |s|
  {
    if from <= until then s[from..until] else ""
  }

  /** The scan over positions `i` to `j`. */
  function Scanned(st: Scan, s: string, i: nat, j: nat): Scan
    requires i <= j <= |s|
    decreases j - i
  {
    if i == j then st else Scanned(Step(st, s, i), s, i + 1, j)
  }

  method Children(s: string) returns (result: seq<string>)
    ensures result == Scanned(FRESH, s, 0, |s|).result
  {
    result := [];
    var depth, quotedString, escape, start := 0, false, false, 0;
    for i := 0 to |s|
      invariant Scanned(Scan(depth, quotedString, escape, start, result), s, i, |s|) == Scanned(FRESH, s, 0, |s|)
    {
      var c := s[i];
      if escape {
        escape := false;
      } else if quotedString && c == '\\' {
        escape := true;
      } else if c == '"' {
        quotedString := !quotedString;
      } else if !quotedString {
        if c == '(' {
          depth := depth + 1;
          if depth == 2 {
            start := i;
          }
        } else if c == ')' {
          if depth == 2 {
            result := result + [Slice(s, start, i + 1)];
          }
          depth := depth - 1;
        }
      }
    }
  }

  // ----- Where a node ends -----

  predicate Occurs(text: string, pattern: string, at: nat) {
    at + |pattern| <= |text| && text[at..at + |pattern|] == pattern
  }

  function IndexOf(text: string, pattern: string, from: nat): Option<nat>
    decreases |text| - from
  {
    if from + |pattern| > |text| then None
    else if Occurs(text, pattern, from) then Some(from)
    else IndexOf(text, pattern, from + 1)
  }

  /** `block`'s scan: depth, string and escape flags, until the depth is zero
      outside a string. */
  function NodeEnd(text: string, i: nat, depth: int, quoted: bool, escape: bool): Option<nat>
    decreases |text| - i
  {
    if i >= |text| then None
    else
      var c := text[i];
      if escape then NodeEnd(text, i + 1, depth, quoted, false)
      else if quoted && c == '\\' then NodeEnd(text, i + 1, depth, quoted, true)
      else if c == '"' then NodeEnd(text, i + 1, depth, !quoted, false)
      else if quoted then NodeEnd(text, i + 1, depth, quoted, false)
      else
        var d := depth + (if c == '(' then 1 else 0) - (if c == ')' then 1 else 0);
        if d == 0 then Some(i + 1) else NodeEnd(text, i + 1, d, quoted, false)
  }

  function SymbolOpening(name: string): string {
    "(symbol \"" + name + "\""
  }

  /** `None` where Python raises ValueError. */
  method Block(text: string, name: string) returns (node: Option<string>)
    ensures node == match IndexOf(text, SymbolOpening(name), 0)
                    case None => None
                    case Some(start) => NodeAt(text, start)
  {
    var found := IndexOf(text, SymbolOpening(name), 0);
    if found.None? {
      return None;
    }
    var start := found.value;
    IndexOfOccurs(text, SymbolOpening(name), 0);
    var depth, inString, escape := 0, false, false;
    var i := start;
    while i < |text|
      invariant start <= i <= |text|
      invariant NodeEnd(text, i, depth, inString, escape) == NodeEnd(text, start, 0, false, false)
    {
      var c := text[i];
      if escape {
        escape := false;
      } else if inString && c == '\\' {
        escape := true;
      } else if c == '"' {
        inString := !inString;
      } else if !inString {
        depth := depth + (if c == '(' then 1 else 0) - (if c == ')' then 1 else 0);
        if depth == 0 {
          return Some(text[start..i + 1]);
        }
      }
      i := i + 1;
    }
    return None;
  }

  lemma {:induction false} NodeEndFits(text: string, i: nat, depth: int, quoted: bool, escape: bool)
    ensures var e := NodeEnd(text, i, depth, quoted, escape); e.Some? ==> i < e.value <= |text|
    decreases |text| - i
  {
    if i < |text| {
      var c := text[i];
      var d := depth + (if c == '(' then 1 else 0) - (if c == ')' then 1 else 0);
      if escape {
        NodeEndFits(text, i + 1, depth, quoted, false);
      } else if quoted && c == '\\' {
        NodeEndFits(text, i + 1, depth, quoted, true);
      } else if c == '"' {
        NodeEndFits(text, i + 1, depth, !quoted, false);
      } else if quoted {
        NodeEndFits(text, i + 1, depth, quoted, false);
      } else if d != 0 {
        NodeEndFits(text, i + 1, d, quoted, false);
      }
    }
  }

  function NodeAt(text: string, start: nat): Option<string> {
    NodeEndFits(text, start, 0, false, false);
    match NodeEnd(text, start, 0, false, false)
    case None => None
    case Some(end) => Some(text[start..end])
  }

  lemma {:induction false} IndexOfOccurs(text: string, pattern: string, from: nat)
    ensures var r := IndexOf(text, pattern, from);
            r.Some? ==> from <= r.value && Occurs(text, pattern, r.value)
                        && forall k :: from <= k < r.value ==> !Occurs(text, pattern, k)
    ensures IndexOf(text, pattern, from).None? ==> forall k :: from <= k ==> !Occurs(text, pattern, k)
    decreases |text| - from
  {
    if from + |pattern| <= |text| && !Occurs(text, pattern, from) {
      IndexOfOccurs(text, pattern, from + 1);
    }
  }

  // ----- Printed expressions -----

  /** Bare text (atoms and spaces), a quoted atom, or a list. */
  datatype Expr = Bare(text: string) | Quoted(content: string) | List(items: seq<Expr>)

  predicate WellFormed(e: Expr) {
    match e
    case Bare(text) => forall i :: 0 <= i < |text| ==> text[i] != '(' && text[i] != ')' && text[i] != '"'
    case Quoted(_) => true
    case List(items) => forall i :: 0 <= i < |items| ==> WellFormed(items[i])
  }

  /** Quotes and backslashes are escaped; parentheses are not. */
  function Escaped(s: string): string {
    if s == [] then []
    else (if s[0] == '"' || s[0] == '\\' then ['\\', s[0]] else [s[0]]) + Escaped(s[1..])
  }

  function Printed(e: Expr): string
    decreases e, 1
  {
    match e
    case Bare(text) => text
    case Quoted(content) => "\"" + Escaped(content) + "\""
    case List(items) => "(" + PrintedAll(items) + ")"
  }

  function PrintedAll(es: seq<Expr>): string
    decreases es, 0
  {
    if es == [] then "" else Printed(es[0]) + PrintedAll(es[1..])
  }

  /** The list-valued members, in order, as text. */
  function PrintedLists(es: seq<Expr>): seq<string> {
    if es == [] then []
    else (if es[0].List? then [Printed(es[0])] else []) + PrintedLists(es[1..])
  }

  // ----- Scanning printed text -----

  lemma OccursAt(s: string, p: string, i: nat, k: nat)
    requires Occurs(s, p, i) && k < |p|
    ensures s[i + k] == p[k]
  {
    assert s[i..i + |p|][k] == p[k];
  }

  lemma OccursPart(s: string, p: string, i: nat, a: nat, b: nat)
    requires Occurs(s, p, i) && a <= b <= |p|
    ensures Occurs(s, p[a..b], i + a)
  {
    forall k | a <= k < b
      ensures s[i + k] == p[k]
    {
      OccursAt(s, p, i, k);
    }
  }

  lemma OccursSplit(s: string, a: string, b: string, i: nat)
    requires Occurs(s, a + b, i)
    ensures Occurs(s, a, i) && Occurs(s, b, i + |a|)
  {
    OccursPart(s, a + b, i, 0, |a|);
    OccursPart(s, a + b, i, |a|, |a| + |b|);
    assert (a + b)[0..|a|] == a && (a + b)[|a|..|a| + |b|] == b;
  }

  lemma OccursWrapped(s: string, open: char, inner: string, close: char, i: nat)
    requires Occurs(s, [open] + inner + [close], i)
    ensures s[i] == open && Occurs(s, inner, i + 1) && s[i + 1 + |inner|] == close
  {
    var p := [open] + inner + [close];
    OccursAt(s, p, i, 0);
    OccursAt(s, p, i, |inner| + 1);
    OccursPart(s, p, i, 1, |inner| + 1);
    assert p[1..|inner| + 1] == inner;
  }

  lemma {:induction false} ScanSplits(st: Scan, s: string, i: nat, j: nat, k: nat)
    requires i <= j <= k <= |s|
    ensures Scanned(st, s, i, k) == Scanned(Scanned(st, s, i, j), s, j, k)
    decreases j - i
  {
    if i < j {
      ScanSplits(Step(st, s, i), s, i + 1, j, k);
    }
  }

  lemma {:induction false} ScanBare(st: Scan, s: string, i: nat, text: string)
    requires WellFormed(Bare(text)) && Occurs(s, text, i) && !st.quoted && !st.escape
    ensures Scanned(st, s, i, i + |text|) == st
    decreases |text|
  {
    if text != [] {
      assert s[i] == text[0];
      assert WellFormed(Bare(text[1..]));
      ScanBare(st, s, i + 1, text[1..]);
    }
  }

  /** The first character of an escaped text takes one place, or two. */
  lemma EscapedFirst(s: string, i: nat, content: string) returns (n: nat)
    requires content != [] && Occurs(s, Escaped(content), i)
    ensures n == 1 || n == 2
    ensures Occurs(s, Escaped(content[1..]), i + n) && |Escaped(content)| == n + |Escaped(content[1..])|
    ensures n == 1 ==> s[i] == content[0] && s[i] != '"' && s[i] != '\\'
    ensures n == 2 ==> s[i] == '\\'
  {
    var first := if content[0] == '"' || content[0] == '\\' then ['\\', content[0]] else [content[0]];
    n := |first|;
    OccursSplit(s, first, Escaped(content[1..]), i);
    OccursAt(s, first, i, 0);
  }

  lemma {:induction false} ScanEscaped(st: Scan, s: string, i: nat, content: string)
    requires Occurs(s, Escaped(content), i) && st.quoted && !st.escape
    ensures Scanned(st, s, i, i + |Escaped(content)|) == st
    decreases |content|
  {
    if content != [] {
      var n := EscapedFirst(s, i, content);
      if n == 2 {
        assert Step(Step(st, s, i), s, i + 1) == st;
      }
      ScanEscaped(st, s, i + n, content[1..]);
    }
  }

  lemma ScanQuoted(st: Scan, s: string, i: nat, content: string)
    requires Occurs(s, Printed(Quoted(content)), i) && !st.quoted && !st.escape
    ensures Scanned(st, s, i, i + |Printed(Quoted(content))|) == st
  {
    var n := |Escaped(content)|;
    OccursWrapped(s, '"', Escaped(content), '"', i);
    var inside := Step(st, s, i);
    ScanEscaped(inside, s, i + 1, content);
    ScanSplits(inside, s, i + 1, i + 1 + n, i + n + 2);
  }

  /** What scanning one printed expression does: nothing, or, for a list right
      below the root, it is added to the result. */
  function AfterExpr(st: Scan, e: Expr, i: nat): Scan {
    if e.List? && st.depth == 1 then st.(start := i, result := st.result + [Printed(e)]) else st
  }

  lemma CloseList(st: Scan, s: string, i: nat, n: nat)
    requires i + n + 2 <= |s| && s[i] == '(' && s[i + 1 + n] == ')'
    requires !st.quoted && !st.escape && st.depth >= 1
    ensures var closed := Scanned(Step(st, s, i), s, i + 1 + n, i + n + 2);
            closed == if st.depth == 1 then st.(start := i, result := st.result + [s[i..i + n + 2]]) else st
  {
    var inside := Step(st, s, i);
    assert Scanned(inside, s, i + 1 + n, i + n + 2) == Step(inside, s, i + 1 + n);
  }

  lemma {:induction false} ScanExpr(st: Scan, s: string, i: nat, e: Expr)
    requires WellFormed(e) && Occurs(s, Printed(e), i) && !st.quoted && !st.escape && st.depth >= 1
    ensures Scanned(st, s, i, i + |Printed(e)|) == AfterExpr(st, e, i)
    decreases e, 1
  {
    match e
    case Bare(text) => ScanBare(st, s, i, text);
    case Quoted(content) => ScanQuoted(st, s, i, content);
    case List(items) =>
      var n := |PrintedAll(items)|;
      OccursWrapped(s, '(', PrintedAll(items), ')', i);
      var inside := Step(st, s, i);
      ScanDeep(inside, s, i + 1, items);
      ScanSplits(inside, s, i + 1, i + 1 + n, i + n + 2);
      CloseList(st, s, i, n);
  }

  /** Two or more levels down, nothing printed changes the scan. */
  lemma {:induction false} ScanDeep(st: Scan, s: string, i: nat, es: seq<Expr>)
    requires forall k :: 0 <= k < |es| ==> WellFormed(es[k])
    requires Occurs(s, PrintedAll(es), i) && !st.quoted && !st.escape && st.depth >= 2
    ensures Scanned(st, s, i, i + |PrintedAll(es)|) == st
    decreases es, 0
  {
    if es != [] {
      FirstOccurs(s, i, es);
      ScanExpr(st, s, i, es[0]);
      ScanDeep(st, s, i + |Printed(es[0])|, es[1..]);
      ScanSplits(st, s, i, i + |Printed(es[0])|, i + |PrintedAll(es)|);
    }
  }

  lemma FirstOccurs(s: string, i: nat, es: seq<Expr>)
    requires es != [] && Occurs(s, PrintedAll(es), i)
    ensures Occurs(s, Printed(es[0]), i) && Occurs(s, PrintedAll(es[1..]), i + |Printed(es[0])|)
  {
    OccursSplit(s, Printed(es[0]), PrintedAll(es[1..]), i);
  }

  /** Right below the root, the scan works member by member ... */
  function AfterMembers(st: Scan, es: seq<Expr>, i: nat): Scan
    decreases |es|
  {
    if es == [] then st
    else AfterMembers(AfterExpr(st, es[0], i), es[1..], i + |Printed(es[0])|)
  }

  lemma {:induction false} ScanMembers(st: Scan, s: string, i: nat, es: seq<Expr>)
    requires forall k :: 0 <= k < |es| ==> WellFormed(es[k])
    requires Occurs(s, PrintedAll(es), i) && !st.quoted && !st.escape && st.depth == 1
    ensures Scanned(st, s, i, i + |PrintedAll(es)|) == AfterMembers(st, es, i)
    decreases |es|
  {
    if es != [] {
      FirstOccurs(s, i, es);
      ScanExpr(st, s, i, es[0]);
      ScanMembers(AfterExpr(st, es[0], i), s, i + |Printed(es[0])|, es[1..]);
      ScanSplits(st, s, i, i + |Printed(es[0])|, i + |PrintedAll(es)|);
    }
  }

  /** ... and collects exactly the lists. */
  lemma {:induction false} MembersCollectLists(st: Scan, es: seq<Expr>, i: nat)
    requires st.depth == 1
    ensures AfterMembers(st, es, i) ==
            st.(start := AfterMembers(st, es, i).start, result := st.result + PrintedLists(es))
    decreases |es|
  {
    if es == [] {
      assert st.result + PrintedLists(es) == st.result;
    } else {
      var next := AfterExpr(st, es[0], i);
      MembersCollectLists(next, es[1..], i + |Printed(es[0])|);
      var first := if es[0].List? then [Printed(es[0])] else [];
      assert next.result == st.result + first;
      Associates(st.result, first, PrintedLists(es[1..]));
    }
  }

  /** `children` of any printed node returns exactly its list-valued members'
      own text, in order, whatever the quoted atoms contain. */
  lemma ChildrenOfPrinted(items: seq<Expr>)
    requires WellFormed(List(items))
    ensures var s := Printed(List(items)); Scanned(FRESH, s, 0, |s|).result == PrintedLists(items)
  {
    var s := Printed(List(items));
    var n := |PrintedAll(items)|;
    assert s[1..n + 1] == PrintedAll(items);
    var inside := Step(FRESH, s, 0);
    ScanMembers(inside, s, 1, items);
    MembersCollectLists(inside, items, 1);
    ScanSplits(inside, s, 1, n + 1, |s|);
    var last := Scanned(inside, s, 1, n + 1);
    assert Scanned(last, s, n + 1, |s|) == Step(last, s, n + 1);
  }

  // ----- Finding a node's end -----

  lemma {:induction false} EndPastBare(s: string, i: nat, depth: int, text: string)
    requires WellFormed(Bare(text)) && Occurs(s, text, i) && depth >= 1
    ensures NodeEnd(s, i, depth, false, false) == NodeEnd(s, i + |text|, depth, false, false)
    decreases |text|
  {
    if text != [] {
      assert s[i] == text[0];
      assert WellFormed(Bare(text[1..]));
      EndPastBare(s, i + 1, depth, text[1..]);
    }
  }

  lemma {:induction false} EndPastEscaped(s: string, i: nat, depth: int, content: string)
    requires Occurs(s, Escaped(content), i)
    ensures NodeEnd(s, i, depth, true, false) == NodeEnd(s, i + |Escaped(content)|, depth, true, false)
    decreases |content|
  {
    if content != [] {
      var n := EscapedFirst(s, i, content);
      if n == 2 {
        assert NodeEnd(s, i, depth, true, false) == NodeEnd(s, i + 1, depth, true, true);
      }
      EndPastEscaped(s, i + n, depth, content[1..]);
    }
  }

  lemma {:induction false} EndPastExpr(s: string, i: nat, depth: int, e: Expr)
    requires WellFormed(e) && Occurs(s, Printed(e), i) && depth >= 1
    ensures NodeEnd(s, i, depth, false, false) == NodeEnd(s, i + |Printed(e)|, depth, false, false)
    decreases e, 1
  {
    match e
    case Bare(text) => EndPastBare(s, i, depth, text);
    case Quoted(content) =>
      OccursWrapped(s, '"', Escaped(content), '"', i);
      EndPastEscaped(s, i + 1, depth, content);
    case List(items) =>
      OccursWrapped(s, '(', PrintedAll(items), ')', i);
      EndPastAll(s, i + 1, depth + 1, items);
  }

  lemma {:induction false} EndPastAll(s: string, i: nat, depth: int, es: seq<Expr>)
    requires forall k :: 0 <= k < |es| ==> WellFormed(es[k])
    requires Occurs(s, PrintedAll(es), i) && depth >= 1
    ensures NodeEnd(s, i, depth, false, false) == NodeEnd(s, i + |PrintedAll(es)|, depth, false, false)
    decreases es, 0
  {
    if es != [] {
      FirstOccurs(s, i, es);
      EndPastExpr(s, i, depth, es[0]);
      EndPastAll(s, i + |Printed(es[0])|, depth, es[1..]);
    }
  }

  /** Started at a printed node, the scan returns exactly that node's text,
      whatever surrounds it. */
  lemma NodeAtPrinted(before: string, items: seq<Expr>, after: string)
    requires WellFormed(List(items))
    ensures NodeAt(before + Printed(List(items)) + after, |before|) == Some(Printed(List(items)))
  {
    var p := Printed(List(items));
    var text := before + p + after;
    var i := |before|;
    assert text[i..i + |p|] == p;
    OccursWrapped(text, '(', PrintedAll(items), ')', i);
    EndPastAll(text, i + 1, 1, items);
    assert NodeEnd(text, i, 0, false, false) == NodeEnd(text, i + 1, 1, false, false);
  }

  /** `block` finds the symbol it is asked for, when its opening occurs nowhere
      earlier, and `children` then lists that symbol's sub-expressions. */
  lemma BlockThenChildren(before: string, name: string, rest: seq<Expr>, after: string)
    requires name == Escaped(name)
    requires WellFormed(List([Bare("symbol "), Quoted(name)] + rest))
    requires var text := before + Printed(List([Bare("symbol "), Quoted(name)] + rest)) + after;
             forall k :: 0 <= k < |before| ==> !Occurs(text, SymbolOpening(name), k)
    ensures var node := List([Bare("symbol "), Quoted(name)] + rest);
            var text := before + Printed(node) + after;
            && IndexOf(text, SymbolOpening(name), 0) == Some(|before|)
            && NodeAt(text, |before|) == Some(Printed(node))
            && Scanned(FRESH, Printed(node), 0, |Printed(node)|).result == PrintedLists(rest)
  {
    var items := [Bare("symbol "), Quoted(name)] + rest;
    var text := before + Printed(List(items)) + after;
    SymbolPrints(name, rest);
    var tail := PrintedAll(rest) + ")" + after;
    assert text == before + SymbolOpening(name) + tail;
    assert Occurs(text, SymbolOpening(name), |before|);
    FirstIndex(text, SymbolOpening(name), 0, |before|);
    NodeAtPrinted(before, items, after);
    ChildrenOfPrinted(items);
  }

  lemma SymbolPrints(name: string, rest: seq<Expr>)
    requires name == Escaped(name)
    ensures var items := [Bare("symbol "), Quoted(name)] + rest;
            && Printed(List(items)) == SymbolOpening(name) + PrintedAll(rest) + ")"
            && PrintedLists(items) == PrintedLists(rest)
  {
    var items := [Bare("symbol "), Quoted(name)] + rest;
    hide PrintedAll, PrintedLists;
    assert items == [Bare("symbol ")] + ([Quoted(name)] + rest);
    Prepended(Bare("symbol "), [Quoted(name)] + rest);
    Prepended(Quoted(name), rest);
    assert Printed(List(items)) == "(" + ("symbol " + (("\"" + name + "\"") + PrintedAll(rest))) + ")";
  }

  lemma Prepended(e: Expr, rest: seq<Expr>)
    ensures PrintedAll([e] + rest) == Printed(e) + PrintedAll(rest)
    ensures PrintedLists([e] + rest) == if e.List? then [Printed(e)] + PrintedLists(rest) else PrintedLists(rest)
  {
    assert ([e] + rest)[1..] == rest;
    assert [] + PrintedLists(rest) == PrintedLists(rest);
  }

  lemma {:induction false} FirstIndex(text: string, pattern: string, from: nat, at: nat)
    requires from <= at && Occurs(text, pattern, at)
    requires forall k :: from <= k < at ==> !Occurs(text, pattern, k)
    ensures IndexOf(text, pattern, from) == Some(at)
    decreases at - from
  {
    if from < at {
      FirstIndex(text, pattern, from + 1, at);
    }
  }

  // ----- Reading back what flatten writes -----

  /** Python's join with newlines. */
  function Joined(texts: seq<string>): string {
    if texts == [] then "" else if |texts| == 1 then texts[0] else texts[0] + "\n" + Joined(texts[1..])
  }

  /** The joined items and the newline that follows them. */
  function Lines(items: seq<Expr>): seq<Expr> {
    if |items| <= 1 then items + [Bare("\n")] else [items[0], Bare("\n")] + Lines(items[1..])
  }

  predicate AllLists(items: seq<Expr>) {
    forall i :: 0 <= i < |items| ==> items[i].List? && WellFormed(items[i])
  }

  function Texts(items: seq<Expr>): seq<string> {
    if items == [] then [] else [Printed(items[0])] + Texts(items[1..])
  }

  lemma {:induction false} LinesPrint(items: seq<Expr>)
    requires AllLists(items)
    ensures PrintedAll(Lines(items)) == Joined(Texts(items)) + "\n"
    ensures PrintedLists(Lines(items)) == Texts(items)
    ensures forall i :: 0 <= i < |Lines(items)| ==> WellFormed(Lines(items)[i])
  {
    hide Printed, WellFormed;
    var newline := Bare("\n");
    NewlinePrints();
    if |items| == 0 {
      assert Lines(items) == [newline];
    } else if |items| == 1 {
      assert Lines(items)[0] == items[0] && Lines(items)[1..] == [newline];
      assert Texts(items) == [Printed(items[0])] + [];
    } else {
      LinesPrint(items[1..]);
      var rest := Lines(items[1..]);
      assert Lines(items)[1..] == [newline] + rest && ([newline] + rest)[1..] == rest;
      assert |Texts(items)| > 1 && Texts(items)[1..] == Texts(items[1..]);
    }
  }

  lemma NewlinePrints()
    ensures Printed(Bare("\n")) == "\n" && PrintedAll([Bare("\n")]) == "\n" && PrintedLists([Bare("\n")]) == []
    ensures WellFormed(Bare("\n"))
  {
    assert [Bare("\n")][1..] == [];
  }

  /** A flattened symbol, read again as a parent, gives back its items. */
  lemma FlattenedIsReadBack(name: string, items: seq<Expr>)
    requires AllLists(items)
    ensures var s := "(symbol " + Printed(Quoted(name)) + "\n" + Joined(Texts(items)) + "\n)";
            Scanned(FRESH, s, 0, |s|).result == Texts(items)
  {
    var all := [Bare("symbol "), Quoted(name), Bare("\n")] + Lines(items);
    LinesPrint(items);
    HeadPrints(name, Lines(items));
    HeadIsWellFormed(name, Lines(items));
    ChildrenOfPrinted(all);
    hide Scanned, PrintedAll, PrintedLists, Lines, Joined, Texts;
    var (q, j) := (Printed(Quoted(name)), Joined(Texts(items)));
    assert Printed(List(all)) == "(" + ("symbol " + q + "\n" + (j + "\n")) + ")";
    hide Printed;
    FlattenedText(q, j);
  }

  lemma FlattenedText(q: string, j: string)
    ensures "(" + ("symbol " + q + "\n" + (j + "\n")) + ")" == "(symbol " + q + "\n" + j + "\n)"
  {
    assert "(" + ("symbol " + q + "\n" + (j + "\n")) == "(symbol " + q + "\n" + j + "\n";
    assert "\n)" == "\n" + ")";
  }

  lemma HeadPrints(name: string, rest: seq<Expr>)
    ensures var all := [Bare("symbol "), Quoted(name), Bare("\n")] + rest;
            && PrintedAll(all) == "symbol " + Printed(Quoted(name)) + "\n" + PrintedAll(rest)
            && PrintedLists(all) == PrintedLists(rest)
  {
    hide PrintedAll, PrintedLists, WellFormed;
    var (one, two) := ([Quoted(name)] + ([Bare("\n")] + rest), [Bare("\n")] + rest);
    assert [Bare("symbol "), Quoted(name), Bare("\n")] + rest == [Bare("symbol ")] + one;
    Prepended(Bare("symbol "), one);
    Prepended(Quoted(name), two);
    Prepended(Bare("\n"), rest);
    hide Printed;
    var q := Printed(Quoted(name));
    assert "symbol " + (q + ("\n" + PrintedAll(rest))) == "symbol " + q + "\n" + PrintedAll(rest);
  }

  lemma HeadIsWellFormed(name: string, rest: seq<Expr>)
    requires forall i :: 0 <= i < |rest| ==> WellFormed(rest[i])
    ensures WellFormed(List([Bare("symbol "), Quoted(name), Bare("\n")] + rest))
  {
  }
}
