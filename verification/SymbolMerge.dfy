/** How a symbol that extends another is flattened: the merge of `flatten` in
    hardware/pcb-p4/import_candidate_parts.py, over the child texts that
    SExpressions slices out. */
module SymbolMerge {
  import opened Text
  import opened SExpressions

  // ----- Property names -----

  const OPENING := "(property "
  const QUOTE := "(property \""

  function UnquotedRun(s: string): (n: nat)
    ensures n <= |s|
  {
    if s != [] && s[0] != '"' then 1 + UnquotedRun(s[1..]) else 0
  }

  /** The property's name, as the regular expression finds it: what stands
      between the first two quotes, if that is not empty. */
  function KeyOf(child: string): Option<string> {
    if !(QUOTE <= child) then None
    else
      var rest := child[|QUOTE|..];
      var n := UnquotedRun(rest);
      if 0 < n < |rest| then Some(rest[..n]) else None
  }

  // ----- An insertion-ordered dictionary -----

  type Dict = seq<(string, string)>

  function Get(d: Dict, k: string): Option<string> {
    if d == [] then None else if d[0].0 == k then Some(d[0].1) else Get(d[1..], k)
  }

  /** Assignment: a known key keeps its place. */
  function Set(d: Dict, k: string, v: string): Dict {
    if d == [] then [(k, v)] else if d[0].0 == k then [(k, v)] + d[1..] else [d[0]] + Set(d[1..], k, v)
  }

  function Popped(d: Dict, k: string): Dict {
    if d == [] then [] else if d[0].0 == k then d[1..] else [d[0]] + Popped(d[1..], k)
  }

  function Values(d: Dict): seq<string> {
    if d == [] then [] else [d[0].1] + Values(d[1..])
  }

  // ----- The merge -----

  /** The comprehension over a symbol's own properties; a property without a
      quoted name is an error. */
  function Properties(children: seq<string>): Option<Dict> {
    if children == [] then Some([])
    else
      var last := children[|children| - 1];
      match Properties(children[..|children| - 1])
      case None => None
      case Some(d) =>
        if !(OPENING <= last) then Some(d)
        else match KeyOf(last)
          case None => None
          case Some(k) => Some(Set(d, k, last))
  }

  /** The base's children with the own properties in their places, then the own
      properties that are new. */
  function Merged(base: seq<string>, own: Dict): seq<string>
    decreases |base|
  {
    if base == [] then Values(own)
    else
      match KeyOf(base[0])
      case None => [base[0]] + Merged(base[1..], own)
      case Some(k) =>
        [if Get(own, k).Some? then Get(own, k).value else base[0]] + Merged(base[1..], Popped(own, k))
  }

  method OwnProperties(children: seq<string>) returns (props: Option<Dict>)
    ensures props == Properties(children)
  {
    var d: Dict := [];
    for i := 0 to |children|
      invariant Properties(children[..i]) == Some(d)
    {
      assert children[..i + 1][..i] == children[..i];
      if OPENING <= children[i] {
        var key := KeyOf(children[i]);
        if key.None? {
          NoPropertiesAfter(children, i + 1);
          return None;
        }
        d := Set(d, key.value, children[i]);
      }
    }
    assert children[..|children|] == children;
    return Some(d);
  }

  lemma {:induction false} NoPropertiesAfter(children: seq<string>, i: nat)
    requires i <= |children| && Properties(children[..i]).None?
    ensures Properties(children).None?
    decreases |children| - i
  {
    if i == |children| {
      assert children[..i] == children;
    } else {
      assert children[..i + 1][..i] == children[..i];
      NoPropertiesAfter(children, i + 1);
    }
  }

  /** The loop of `flatten` and the line after it. */
  method Merge(base: seq<string>, own: Dict) returns (items: seq<string>)
    ensures items == Merged(base, own)
  {
    items := [];
    var props := own;
    for i := 0 to |base|
      invariant items + Merged(base[i..], props) == Merged(base, own)
    {
      var c := base[i];
      var key := KeyOf(c);
      var item := c;
      if key.Some? && Get(props, key.value).Some? {
        item := Get(props, key.value).value;
      }
      MergedFirst(base[i..], props);
      assert base[i..][1..] == base[i + 1..];
      if key.Some? {
        props := Popped(props, key.value);
      }
      Associates(items, [item], Merged(base[i + 1..], props));
      items := items + [item];
    }
    items := items + Values(props);
  }

  lemma MergedFirst(base: seq<string>, own: Dict)
    requires base != []
    ensures var key := KeyOf(base[0]);
            Merged(base, own)
            == [if key.Some? && Get(own, key.value).Some? then Get(own, key.value).value else base[0]]
               + Merged(base[1..], if key.Some? then Popped(own, key.value) else own)
  {
  }

  // ----- Dictionaries -----

  /** Every entry is filed under its own text's name, once. */
  predicate Filed(d: Dict) {
    d == [] || (KeyOf(d[0].1) == Some(d[0].0) && Get(d[1..], d[0].0).None? && Filed(d[1..]))
  }

  lemma {:induction false} GetSet(d: Dict, k: string, v: string, other: string)
    ensures Get(Set(d, k, v), other) == if other == k then Some(v) else Get(d, other)
  {
    if d != [] && d[0].0 != k {
      GetSet(d[1..], k, v, other);
    }
  }

  lemma {:induction false} SetFiled(d: Dict, k: string, v: string)
    requires Filed(d) && KeyOf(v) == Some(k)
    ensures Filed(Set(d, k, v))
  {
    hide KeyOf;
    if d != [] && d[0].0 != k {
      SetFiled(d[1..], k, v);
      GetSet(d[1..], k, v, d[0].0);
    }
  }

  lemma {:induction false} GetPopped(d: Dict, k: string, other: string)
    requires Filed(d)
    ensures Get(Popped(d, k), other) == if other == k then None else Get(d, other)
  {
    hide KeyOf;
    if d != [] && d[0].0 != k {
      GetPopped(d[1..], k, other);
    }
  }

  lemma {:induction false} PoppedFiled(d: Dict, k: string)
    requires Filed(d)
    ensures Filed(Popped(d, k))
  {
    hide KeyOf;
    if d != [] && d[0].0 != k {
      PoppedFiled(d[1..], k);
      GetPopped(d[1..], k, d[0].0);
    }
  }

  lemma {:induction false} GetKeyed(d: Dict, k: string)
    requires Filed(d) && Get(d, k).Some?
    ensures KeyOf(Get(d, k).value) == Some(k)
  {
    hide KeyOf;
    if d[0].0 != k {
      GetKeyed(d[1..], k);
    }
  }

  /** The dictionary of a symbol's own properties files each name once, under
      the last of its texts. */
  lemma {:induction false} PropertiesAreFiled(children: seq<string>, k: string)
    requires Properties(children).Some?
    ensures Filed(Properties(children).value)
    ensures Get(Properties(children).value, k) == Last(children, k)
    decreases |children|
  {
    hide KeyOf;
    if children != [] {
      var (earlier, last) := (children[..|children| - 1], children[|children| - 1]);
      PropertiesAreFiled(earlier, k);
      KeyedOpens(last);
      if OPENING <= last {
        SetFiled(Properties(earlier).value, KeyOf(last).value, last);
        GetSet(Properties(earlier).value, KeyOf(last).value, last, k);
      }
    }
  }

  lemma KeyedOpens(child: string)
    ensures KeyOf(child).Some? ==> OPENING <= child
  {
    assert QUOTE[..|OPENING|] == OPENING;
  }

  /** The last child of that name. */
  function Last(children: seq<string>, k: string): Option<string> {
    if children == [] then None
    else if KeyOf(children[|children| - 1]) == Some(k) then Some(children[|children| - 1])
    else Last(children[..|children| - 1], k)
  }

  /** The first child of that name. */
  function First(children: seq<string>, k: string): Option<string> {
    if children == [] then None else if KeyOf(children[0]) == Some(k) then Some(children[0]) else First(children[1..], k)
  }

  // ----- What the merge means -----

  lemma {:induction false} FirstValue(d: Dict, k: string)
    requires Filed(d)
    ensures First(Values(d), k) == Get(d, k)
  {
    hide KeyOf;
    if d != [] {
      assert Values(d)[1..] == Values(d[1..]);
      FirstValue(d[1..], k);
    }
  }

  /** In a flattened symbol a property is the symbol's own, or else its base's. */
  lemma {:induction false} OwnOverridesBase(base: seq<string>, own: Dict, k: string)
    requires Filed(own)
    ensures First(Merged(base, own), k) == if Get(own, k).Some? then Get(own, k) else First(base, k)
    decreases |base|
  {
    hide KeyOf;
    if base == [] {
      FirstValue(own, k);
    } else {
      var key := KeyOf(base[0]);
      var rest := if key.Some? then Popped(own, key.value) else own;
      MergedFirst(base, own);
      assert Merged(base, own)[1..] == Merged(base[1..], rest);
      if key.Some? {
        PoppedFiled(own, key.value);
        GetPopped(own, key.value, k);
        if Get(own, key.value).Some? {
          GetKeyed(own, key.value);
        }
      }
      OwnOverridesBase(base[1..], rest, k);
    }
  }

  /** The own properties that the base does not name. */
  function New(base: seq<string>, own: Dict): Dict {
    if base == [] then own
    else New(base[1..], if KeyOf(base[0]).Some? then Popped(own, KeyOf(base[0]).value) else own)
  }

  /** Nothing of the base moves or is lost: each of its children stays in its
      place or is replaced there by the own property of its name, and only new
      properties follow, in their order. */
  lemma {:induction false} BaseKeepsItsPlaces(base: seq<string>, own: Dict)
    requires Filed(own)
    ensures var items := Merged(base, own);
            && |base| <= |items|
            && (forall i :: 0 <= i < |base| ==>
                  && KeyOf(items[i]) == KeyOf(base[i])
                  && (items[i] == base[i] || (KeyOf(base[i]).Some? && Get(own, KeyOf(base[i]).value) == Some(items[i]))))
            && items[|base|..] == Values(New(base, own))
    decreases |base|
  {
    hide KeyOf;
    if base != [] {
      var key := KeyOf(base[0]);
      var rest := if key.Some? then Popped(own, key.value) else own;
      MergedFirst(base, own);
      var (items, tail) := (Merged(base, own), Merged(base[1..], rest));
      assert items[1..] == tail;
      if key.Some? {
        PoppedFiled(own, key.value);
        if Get(own, key.value).Some? {
          GetKeyed(own, key.value);
        }
      }
      BaseKeepsItsPlaces(base[1..], rest);
      forall i | 0 < i < |base|
        ensures KeyOf(items[i]) == KeyOf(base[i])
        ensures items[i] == base[i] || (KeyOf(base[i]).Some? && Get(own, KeyOf(base[i]).value) == Some(items[i]))
      {
        assert items[i] == tail[i - 1] && base[i] == base[1..][i - 1];
        if key.Some? && KeyOf(base[i]).Some? {
          GetPopped(own, key.value, KeyOf(base[i]).value);
        }
      }
      assert items[|base|..] == tail[|base| - 1..];
    }
  }

  /** No property name occurs twice. */
  predicate NamesOnce(items: seq<string>) {
    items == [] || ((KeyOf(items[0]).Some? ==> First(items[1..], KeyOf(items[0]).value).None?) && NamesOnce(items[1..]))
  }

  lemma {:induction false} ValuesNameOnce(d: Dict)
    requires Filed(d)
    ensures NamesOnce(Values(d))
  {
    hide KeyOf;
    if d != [] {
      assert Values(d)[1..] == Values(d[1..]);
      FirstValue(d[1..], d[0].0);
      ValuesNameOnce(d[1..]);
    }
  }

  /** A base whose names differ gives a flattened symbol whose names differ. */
  lemma {:induction false} MergedNamesOnce(base: seq<string>, own: Dict)
    requires Filed(own) && NamesOnce(base)
    ensures NamesOnce(Merged(base, own))
    decreases |base|
  {
    hide KeyOf;
    if base == [] {
      ValuesNameOnce(own);
    } else {
      var key := KeyOf(base[0]);
      var rest := if key.Some? then Popped(own, key.value) else own;
      MergedFirst(base, own);
      assert Merged(base, own)[1..] == Merged(base[1..], rest);
      if key.Some? {
        PoppedFiled(own, key.value);
        GetPopped(own, key.value, key.value);
        OwnOverridesBase(base[1..], rest, key.value);
        if Get(own, key.value).Some? {
          GetKeyed(own, key.value);
        }
      }
      MergedNamesOnce(base[1..], rest);
    }
  }

  lemma {:induction false} ValuesMerge(own: Dict)
    requires Filed(own)
    ensures Merged(Values(own), own) == Values(own)
  {
    hide KeyOf;
    if own != [] {
      MergedFirst(Values(own), own);
      assert Values(own)[1..] == Values(own[1..]);
      ValuesMerge(own[1..]);
    }
  }

  /** Merging the same properties again changes nothing. */
  lemma {:induction false} MergeIsIdempotent(base: seq<string>, own: Dict)
    requires Filed(own)
    ensures Merged(Merged(base, own), own) == Merged(base, own)
    decreases |base|
  {
    hide KeyOf;
    if base == [] {
      ValuesMerge(own);
    } else {
      var key := KeyOf(base[0]);
      var rest := if key.Some? then Popped(own, key.value) else own;
      MergedFirst(base, own);
      var items := Merged(base, own);
      assert items[1..] == Merged(base[1..], rest);
      if key.Some? {
        PoppedFiled(own, key.value);
        if Get(own, key.value).Some? {
          GetKeyed(own, key.value);
        }
      }
      MergedFirst(items, own);
      MergeIsIdempotent(base[1..], rest);
    }
  }

  // ----- A chain of symbols, through their texts -----

  function Sliced(text: string): seq<string> {
    Scanned(FRESH, text, 0, |text|).result
  }

  /** The text of a symbol that extends another: `levels` are the child texts of
      the symbols from just below the root down. */
  function Flattened(name: string, root: string, levels: seq<seq<string>>): Option<string>
    decreases |levels|
  {
    if levels == [] then Some(root)
    else
      match Flattened(name, root, levels[..|levels| - 1])
      case None => None
      case Some(base) =>
        match Properties(levels[|levels| - 1])
        case None => None
        case Some(own) =>
          Some("(symbol " + Printed(Quoted(name)) + "\n" + Joined(Merged(Sliced(base), own)) + "\n)")
  }

  /** The text of the most derived symbol that defines the property, or the
      root's. */
  function MostDerived(rootChildren: seq<string>, levels: seq<seq<string>>, k: string): Option<string>
    decreases |levels|
  {
    if levels == [] then First(rootChildren, k)
    else if Last(levels[|levels| - 1], k).Some? then Last(levels[|levels| - 1], k)
    else MostDerived(rootChildren, levels[..|levels| - 1], k)
  }

  /** Texts as slicing a well-formed node gives them. */
  ghost predicate Nodes(texts: seq<string>) {
    forall t :: t in texts ==> exists e: Expr :: e.List? && WellFormed(e) && Printed(e) == t
  }

  lemma {:induction false} NodesAreTexts(texts: seq<string>) returns (items: seq<Expr>)
    requires Nodes(texts)
    ensures AllLists(items) && Texts(items) == texts
  {
    if texts == [] {
      items := [];
    } else {
      assert texts[0] in texts;
      var e: Expr :| e.List? && WellFormed(e) && Printed(e) == texts[0];
      hide Printed, WellFormed;
      forall t | t in texts[1..]
        ensures t in texts
      {
      }
      var rest := NodesAreTexts(texts[1..]);
      items := [e] + rest;
      assert items[1..] == rest;
    }
  }

  lemma {:induction false} GetAmong(d: Dict, texts: seq<string>)
    requires forall i :: 0 <= i < |d| ==> d[i].1 in texts
    ensures forall t :: t in Values(d) ==> t in texts
    ensures forall k :: Get(d, k).Some? ==> Get(d, k).value in texts
    ensures forall k :: forall i :: 0 <= i < |Popped(d, k)| ==> Popped(d, k)[i].1 in texts
  {
    if d != [] {
      assert forall i :: 0 <= i < |d[1..]| ==> d[1..][i] == d[i + 1];
      GetAmong(d[1..], texts);
    }
  }

  lemma {:induction false} SetAmong(d: Dict, k: string, v: string, texts: seq<string>)
    requires v in texts && forall i :: 0 <= i < |d| ==> d[i].1 in texts
    ensures forall i :: 0 <= i < |Set(d, k, v)| ==> Set(d, k, v)[i].1 in texts
  {
    if d != [] && d[0].0 != k {
      assert forall i :: 0 <= i < |d[1..]| ==> d[1..][i] == d[i + 1];
      SetAmong(d[1..], k, v, texts);
    }
  }

  lemma {:induction false} PropertiesAmong(children: seq<string>, texts: seq<string>)
    requires Properties(children).Some? && forall t :: t in children ==> t in texts
    ensures var d := Properties(children).value; forall i :: 0 <= i < |d| ==> d[i].1 in texts
    decreases |children|
  {
    hide KeyOf;
    if children != [] {
      var (earlier, last) := (children[..|children| - 1], children[|children| - 1]);
      assert last in children;
      PropertiesAmong(earlier, texts);
      if OPENING <= last {
        SetAmong(Properties(earlier).value, KeyOf(last).value, last, texts);
      }
    }
  }

  lemma {:induction false} MergedAmong(base: seq<string>, own: Dict, texts: seq<string>)
    requires (forall t :: t in base ==> t in texts) && forall i :: 0 <= i < |own| ==> own[i].1 in texts
    ensures forall t :: t in Merged(base, own) ==> t in texts
    decreases |base|
  {
    hide KeyOf;
    GetAmong(own, texts);
    if base != [] {
      var key := KeyOf(base[0]);
      MergedFirst(base, own);
      assert base[0] in base;
      MergedAmong(base[1..], if key.Some? then Popped(own, key.value) else own, texts);
    }
  }

  lemma MergedNodes(base: seq<string>, children: seq<string>)
    requires Nodes(base) && Nodes(children) && Properties(children).Some?
    ensures Nodes(Merged(base, Properties(children).value))
  {
    hide KeyOf, Printed, WellFormed;
    PropertiesAmong(children, base + children);
    MergedAmong(base, Properties(children).value, base + children);
  }

  /** Flattening writes a text that `children` slices into exactly the merged
      items. */
  lemma FlattenedSlices(name: string, root: string, levels: seq<seq<string>>)
    requires levels != [] && Flattened(name, root, levels).Some?
    requires var base := Flattened(name, root, levels[..|levels| - 1]).value;
             Nodes(Sliced(base)) && Nodes(levels[|levels| - 1])
    ensures var base := Flattened(name, root, levels[..|levels| - 1]).value;
            && Sliced(Flattened(name, root, levels).value)
               == Merged(Sliced(base), Properties(levels[|levels| - 1]).value)
            && Nodes(Sliced(Flattened(name, root, levels).value))
  {
    hide KeyOf, Printed, WellFormed, Scanned, Merged, Properties;
    var base := Flattened(name, root, levels[..|levels| - 1]).value;
    var own := Properties(levels[|levels| - 1]).value;
    MergedNodes(Sliced(base), levels[|levels| - 1]);
    var items := NodesAreTexts(Merged(Sliced(base), own));
    FlattenedIsReadBack(name, items);
  }

  /** Along any chain of symbols that extend one another, the flattened text
      defines each property as the most derived symbol that has it does. */
  lemma {:induction false} MostDerivedWins(name: string, root: string, levels: seq<seq<string>>, k: string)
    requires Flattened(name, root, levels).Some? && Nodes(Sliced(root))
    requires forall i :: 0 <= i < |levels| ==> Nodes(levels[i])
    ensures Nodes(Sliced(Flattened(name, root, levels).value))
    ensures First(Sliced(Flattened(name, root, levels).value), k) == MostDerived(Sliced(root), levels, k)
    decreases |levels|
  {
    hide KeyOf, Nodes, Sliced, Merged, Properties, First, Last;
    if levels != [] {
      var n := |levels| - 1;
      MostDerivedWins(name, root, levels[..n], k);
      FlattenedSlices(name, root, levels);
      PropertiesAreFiled(levels[n], k);
      OwnOverridesBase(Sliced(Flattened(name, root, levels[..n]).value), Properties(levels[n]).value, k);
    }
  }

  // ----- Names and the error -----

  lemma {:induction false} RunIsUnquoted(s: string)
    ensures var n := UnquotedRun(s); '"' !in s[..n] && (n < |s| ==> s[n] == '"')
  {
    if s != [] && s[0] != '"' {
      RunIsUnquoted(s[1..]);
      var n := UnquotedRun(s[1..]);
      assert s[..1 + n] == [s[0]] + s[1..][..n];
    }
  }

  lemma RunUpToQuote(k: string, after: string)
    requires '"' !in k
    ensures UnquotedRun(k + "\"" + after) == |k|
  {
    var s := k + "\"" + after;
    var n := UnquotedRun(s);
    RunIsUnquoted(s);
    assert s[|k|] == '"' && forall i :: 0 <= i < |k| ==> s[i] == k[i] && k[i] in k;
  }

  /** A child is called `k` exactly when it starts with "(property", a blank and
      `k` in quotes, where `k` has none and is not empty. */
  lemma NameIsQuoted(child: string, k: string)
    ensures KeyOf(child) == Some(k) <==> k != "" && '"' !in k && "(property \"" + k + "\"" <= child
  {
    var start := "(property \"" + k + "\"";
    if QUOTE <= child {
      var rest := child[|QUOTE|..];
      RunIsUnquoted(rest);
      assert child == QUOTE + rest;
      if k != "" && '"' !in k && start <= child {
        var after := child[|start|..];
        assert child == start + after;
        assert rest == k + "\"" + after;
        RunUpToQuote(k, after);
        assert rest[..|k|] == k;
      }
      if KeyOf(child) == Some(k) {
        assert k == rest[..|k|] && rest[|k|] == '"';
        assert child[..|start|] == start;
      }
    }
  }

  /** The own properties cannot be taken exactly when some child that starts as a
      property has no name in quotes. */
  lemma {:induction false} PropertiesFailWhen(children: seq<string>)
    ensures Properties(children).None?
       <==> exists i :: 0 <= i < |children| && "(property " <= children[i] && KeyOf(children[i]).None?
  {
    hide KeyOf, Set;
    if children != [] {
      var n := |children| - 1;
      PropertiesFailWhen(children[..n]);
      assert forall i :: 0 <= i < n ==> children[..n][i] == children[i];
    }
  }
}
