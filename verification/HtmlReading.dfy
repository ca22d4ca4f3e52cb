/** Reading a printed HTML tree back whole: attributes and styles too. */
module HtmlReading {
  import opened Wrappers
  import opened Sequences
  import opened Text
  import opened HtmlTree

  // ---- A reader of attributes and of styles ----

  /** Attributes: a blank, a name up to the '=', a value between quotes, a blank, and so on. */
  function PairsOf(s: string): Pairs
    decreases |s|
  {
    var n := Find(s, '=');
    if n == 0 || n + 2 > |s| then []
    else
      var rest := s[n + 2..];
      var q := Find(rest, '"');
      [(s[1..n], rest[..q])] + (if q + 2 <= |rest| then PairsOf(rest[q + 2..]) else [])
  }

  /** Styles: a name up to the ": ", a value up to the "; ", and so on. */
  function StylesOf(s: string): Pairs
    decreases |s|
  {
    var n := FindText(s, ": ");
    if n + 2 > |s| then []
    else
      var rest := s[n + 2..];
      var v := FindText(rest, "; ");
      [(s[..n], rest[..v])] + (if v + 2 <= |rest| then StylesOf(rest[v + 2..]) else [])
  }

  datatype Fields = Fields(name: string, id: string, properties: Pairs, styles: Pairs)

  /** The value of the first attribute, if it has this name, and the other attributes. */
  function TakeFirst(pairs: Pairs, name: string): (string, Pairs) {
    if pairs != [] && pairs[0].0 == name then (pairs[0].1, pairs[1..]) else ("", pairs)
  }

  function TakeLast(pairs: Pairs, name: string): (string, Pairs) {
    var n := |pairs| - 1;
    if pairs != [] && pairs[n].0 == name then (pairs[n].1, pairs[..n]) else ("", pairs)
  }

  /** A name comes first, then an id; the styles come last. */
  function FieldsOf(pairs: Pairs): Fields {
    var (name, afterName) := TakeFirst(pairs, "name");
    var (id, afterId) := TakeFirst(afterName, "id");
    var (styles, properties) := TakeLast(afterId, "style");
    Fields(name, id, properties, StylesOf(styles))
  }

  function TreeOf(e: Element): Tree
    decreases e, 1
  {
    var fields := FieldsOf(PairsOf(e.attributes));
    Tree(e.tag, fields.name, fields.id, fields.properties, fields.styles, TreesOf(e.children), e.content)
  }

  function TreesOf(es: seq<Element>): seq<Tree>
    decreases es, 0
  {
    if es == [] then [] else [TreeOf(es[0])] + TreesOf(es[1..])
  }

  function ParseTrees(s: string): Option<seq<Tree>> {
    match Parse(s)
    case Some(elements) => Some(TreesOf(elements))
    case None => None
  }

  // ---- Attributes are read back ----

  predicate ReadablePairs(pairs: Pairs) {
    forall i :: 0 <= i < |pairs| ==> '=' !in pairs[i].0 && '"' !in pairs[i].1
  }

  lemma {:induction false} PropertyTextConcat(a: Pairs, b: Pairs)
    ensures PropertyText(a + b) == PropertyText(a) + PropertyText(b)
    decreases |b|
  {
    if b == [] {
      assert a + b == a;
    } else {
      var n := |b| - 1;
      PropertyTextConcat(a, b[..n]);
      assert (a + b)[..|a| + n] == a + b[..n];
      Regroup(PropertyText(a), PropertyText(b[..n]), " " + b[n].0 + "=\"" + b[n].1 + "\" ");
    }
  }

  lemma OneProperty(name: string, value: string)
    ensures PropertyText([(name, value)]) == " " + name + "=\"" + value + "\" "
  {
    assert [(name, value)][..0] == [];
  }

  lemma PairIsRead(name: string, value: string, rest: string)
    requires '=' !in name && '"' !in value
    ensures PairsOf(" " + name + "=\"" + value + "\" " + rest) == [(name, value)] + PairsOf(rest)
  {
    var s := " " + name + "=\"" + value + "\" " + rest;
    var tail := value + "\" " + rest;
    assert s == (" " + name) + ['='] + ("\"" + tail);
    FindAfter(" " + name, '=', "\"" + tail);
    var n := |name| + 1;
    assert s[1..n] == name && s[n + 2..] == tail;
    assert tail == value + ['"'] + (" " + rest);
    FindAfter(value, '"', " " + rest);
    assert tail[..|value|] == value && tail[|value| + 2..] == rest;
  }

  lemma {:induction false} PropertiesAreRead(pairs: Pairs)
    requires ReadablePairs(pairs)
    ensures PairsOf(PropertyText(pairs)) == pairs
    decreases |pairs|
  {
    if pairs == [] {
    } else {
      var (name, value) := pairs[0];
      assert pairs == [pairs[0]] + pairs[1..];
      PropertyTextConcat([pairs[0]], pairs[1..]);
      OneProperty(name, value);
      PairIsRead(name, value, PropertyText(pairs[1..]));
      PropertiesAreRead(pairs[1..]);
    }
  }

  /** The attributes that a tree is printed with, in order. */
  function AttributeList(t: Tree): Pairs {
    (if t.name != "" then [("name", t.name)] else [])
    + (if t.id != "" then [("id", t.id)] else [])
    + t.properties
    + (if t.styles != [] then [("style", StyleText(t.styles))] else [])
  }

  lemma LiteralNames(name: string, id: string, style: string)
    ensures " " + "name" + "=\"" + name + "\" " == " name=\"" + name + "\" "
    ensures " " + "id" + "=\"" + id + "\" " == " id=\"" + id + "\" "
    ensures " " + "style" + "=\"" + style + "\" " == " style=\"" + style + "\" "
  {
    assert " " + "name" + "=\"" == " name=\"" && " " + "id" + "=\"" == " id=\"";
    assert " " + "style" + "=\"" == " style=\"";
  }

  lemma AttributesArePairs(t: Tree)
    ensures AttributesOf(t) == PropertyText(AttributeList(t))
  {
    var name := if t.name != "" then [("name", t.name)] else [];
    var id := if t.id != "" then [("id", t.id)] else [];
    var style := if t.styles != [] then [("style", StyleText(t.styles))] else [];
    PropertyTextConcat(name + id + t.properties, style);
    PropertyTextConcat(name + id, t.properties);
    PropertyTextConcat(name, id);
    OneProperty("name", t.name);
    OneProperty("id", t.id);
    OneProperty("style", StyleText(t.styles));
    LiteralNames(t.name, t.id, StyleText(t.styles));
  }

  // ---- Styles are read back ----

  predicate Contains(s: string, pattern: string) { exists i :: 0 <= i < |s| && Occurs(s, pattern, i) }

  predicate ReadableStyles(styles: Pairs) {
    forall i :: 0 <= i < |styles| ==>
      && !Contains(styles[i].0, ": ") && '"' !in styles[i].0
      && !Contains(styles[i].1, "; ") && '"' !in styles[i].1
  }

  lemma OccursPair(s: string, pattern: string, j: nat)
    requires |pattern| == 2 && j < |s|
    ensures Occurs(s, pattern, j) <==> j + 1 < |s| && s[j] == pattern[0] && s[j + 1] == pattern[1]
  {
    if j + 1 < |s| {
      assert s[j..] == [s[j], s[j + 1]] + s[j + 2..] && pattern == [pattern[0], pattern[1]];
    }
  }

  /** A pattern of two different characters is found behind a text that does not contain it. */
  lemma FindPair(before: string, pattern: string, after: string)
    requires |pattern| == 2 && pattern[0] != pattern[1] && !Contains(before, pattern)
    ensures FindText(before + pattern + after, pattern) == |before|
  {
    var s := before + pattern + after;
    assert s[|before|] == pattern[0] && s[|before| + 1] == pattern[1];
    OccursPair(s, pattern, |before|);
    forall j | 0 <= j < |before| ensures !Occurs(s, pattern, j) {
      assert s[j] == before[j] && (j + 1 < |before| ==> s[j + 1] == before[j + 1]);
      OccursPair(s, pattern, j);
      OccursPair(before, pattern, j);
    }
    FindTextIs(s, pattern, |before|);
  }

  lemma StyleIsRead(name: string, value: string, rest: string)
    requires !Contains(name, ": ") && !Contains(value, "; ")
    ensures StylesOf(name + ": " + value + "; " + rest) == [(name, value)] + StylesOf(rest)
  {
    var s := name + ": " + value + "; " + rest;
    var tail := value + "; " + rest;
    assert s == name + ": " + tail;
    FindPair(name, ": ", tail);
    assert s[..|name|] == name && s[|name| + 2..] == tail;
    FindPair(value, "; ", rest);
    assert tail[..|value|] == value && tail[|value| + 2..] == rest;
  }

  lemma {:induction false} StyleTextConcat(a: Pairs, b: Pairs)
    ensures StyleText(a + b) == StyleText(a) + StyleText(b)
    decreases |b|
  {
    if b == [] {
      assert a + b == a;
    } else {
      var n := |b| - 1;
      StyleTextConcat(a, b[..n]);
      assert (a + b)[..|a| + n] == a + b[..n];
      Regroup(StyleText(a), StyleText(b[..n]), b[n].0 + ": " + b[n].1 + "; ");
    }
  }

  lemma StyleTextFromFirst(styles: Pairs)
    requires styles != []
    ensures StyleText(styles) == styles[0].0 + ": " + styles[0].1 + "; " + StyleText(styles[1..])
  {
    var first := [styles[0]];
    assert styles == first + styles[1..];
    StyleTextConcat(first, styles[1..]);
    assert first[..0] == [];
    assert StyleText(first) == styles[0].0 + ": " + styles[0].1 + "; ";
  }

  lemma {:induction false} StylesAreRead(styles: Pairs)
    requires ReadableStyles(styles)
    ensures StylesOf(StyleText(styles)) == styles
    decreases |styles|
  {
    if styles == [] {
    } else {
      StyleTextFromFirst(styles);
      StyleIsRead(styles[0].0, styles[0].1, StyleText(styles[1..]));
      StylesAreRead(styles[1..]);
    }
  }

  lemma {:induction false} StylesHaveNoQuote(styles: Pairs)
    requires ReadableStyles(styles)
    ensures '"' !in StyleText(styles)
    decreases |styles|
  {
    if styles == [] {
    } else {
      StylesHaveNoQuote(styles[..|styles| - 1]);
    }
  }

  // ---- The whole tree ----

  /** The strings do not hold what ends them in the text. */
  predicate ReadableTree(t: Tree)
    decreases t
  {
    && '"' !in t.name && '"' !in t.id && ReadablePairs(t.properties) && ReadableStyles(t.styles)
    && forall i :: 0 <= i < |t.children| ==> ReadableTree(t.children[i])
  }

  /** The first property can be taken for a missing name or id, or the last one for missing styles. */
  predicate Misleading(t: Tree) {
    && t.properties != []
    && ((t.properties[0].0 == "name" && t.name == "" && t.id == "")
        || (t.properties[0].0 == "id" && t.id == "")
        || (t.properties[|t.properties| - 1].0 == "style" && t.styles == []))
  }

  predicate NowhereMisleading(t: Tree)
    decreases t, 1
  {
    !Misleading(t) && NoneMisleading(t.children)
  }

  predicate NoneMisleading(ts: seq<Tree>)
    decreases ts, 0
  {
    ts == [] || (NowhereMisleading(ts[0]) && NoneMisleading(ts[1..]))
  }

  lemma BothReadable(a: Pairs, b: Pairs)
    requires ReadablePairs(a) && ReadablePairs(b)
    ensures ReadablePairs(a + b)
  {
  }

  lemma AttributeListIsReadable(t: Tree)
    requires '"' !in t.name && '"' !in t.id && ReadablePairs(t.properties) && ReadableStyles(t.styles)
    ensures ReadablePairs(AttributeList(t))
  {
    var name := if t.name != "" then [("name", t.name)] else [];
    var id := if t.id != "" then [("id", t.id)] else [];
    var style := if t.styles != [] then [("style", StyleText(t.styles))] else [];
    StylesHaveNoQuote(t.styles);
    BothReadable(name, id);
    BothReadable(name + id, t.properties);
    BothReadable(name + id + t.properties, style);
  }

  lemma {:induction false} AttributesAreRead(t: Tree)
    requires '"' !in t.name && '"' !in t.id && ReadablePairs(t.properties) && ReadableStyles(t.styles)
    ensures PairsOf(AttributesOf(t)) == AttributeList(t)
  {
    AttributesArePairs(t);
    AttributeListIsReadable(t);
    PropertiesAreRead(AttributeList(t));
  }

  lemma FirstIsTaken(key: string, value: string, rest: Pairs)
    ensures var misled := value == "" && rest != [] && rest[0].0 == key;
            TakeFirst((if value != "" then [(key, value)] else []) + rest, key)
            == if misled then (rest[0].1, rest[1..]) else (value, rest)
  {
    var pairs := (if value != "" then [(key, value)] else []) + rest;
    if value == "" {
      assert pairs == rest;
    } else {
      assert pairs[0] == (key, value) && pairs[1..] == rest;
    }
  }

  lemma LastIsTaken(rest: Pairs, key: string, given: bool, value: string)
    ensures var misled := !given && rest != [] && rest[|rest| - 1].0 == key;
            TakeLast(rest + (if given then [(key, value)] else []), key)
            == if misled then (rest[|rest| - 1].1, rest[..|rest| - 1]) else (if given then value else "", rest)
  {
    var pairs := rest + (if given then [(key, value)] else []);
    if given {
      assert pairs[|rest|] == (key, value) && pairs[..|rest|] == rest;
    } else {
      assert pairs == rest;
    }
  }

  /** What is left is not more than there was. */
  lemma NothingIsAdded(rest: Pairs, given: bool, value: string)
    ensures var style := if given then [("style", value)] else [];
            |TakeLast(TakeFirst(rest + style, "id").1, "style").1| <= |rest|
  {
    var style := if given then [("style", value)] else [];
    var pairs := rest + style;
    if rest != [] && rest[0].0 == "id" {
      assert pairs[0] == rest[0] && pairs[1..] == rest[1..] + style;
      LastIsTaken(rest[1..], "style", given, value);
    } else {
      assert rest != [] ==> pairs[0] == rest[0];
      assert rest == [] ==> pairs == style;
      LastIsTaken(rest, "style", given, value);
    }
  }

  lemma FirstOf(a: Pairs, b: Pairs)
    ensures a != [] ==> (a + b)[0] == a[0] && (a + b)[1..] == a[1..] + b
    ensures a == [] ==> a + b == b
  {
  }

  /** The three steps, for properties and styles given as text. */
  lemma ListIsRead(name: string, id: string, properties: Pairs, given: bool, style: string)
    ensures var end := if given then [("style", style)] else [];
            var rest := (if id != "" then [("id", id)] else []) + (properties + end);
            var fields := FieldsOf((if name != "" then [("name", name)] else []) + rest);
            var misleading := properties != []
                              && ((properties[0].0 == "name" && name == "" && id == "")
                                  || (properties[0].0 == "id" && id == "")
                                  || (properties[|properties| - 1].0 == "style" && !given));
            if misleading then |fields.properties| < |properties|
            else fields == Fields(name, id, properties, if given then StylesOf(style) else [])
  {
    var end := if given then [("style", style)] else [];
    var first := if id != "" then [("id", id)] else [];
    FirstOf(first, properties + end);
    FirstOf(properties, end);
    FirstIsTaken("name", name, first + (properties + end));
    FirstIsTaken("id", id, properties + end);
    LastIsTaken(properties, "style", given, style);
    assert StylesOf("") == [];
    if properties != [] {
      NothingIsAdded(properties[1..], given, style);
      LastIsTaken(properties[1..], "style", given, style);
    }
  }

  /** The fields are those of the tree exactly if its properties do not mislead. */
  lemma {:induction false} FieldsAreRead(t: Tree)
    requires ReadableStyles(t.styles)
    ensures FieldsOf(AttributeList(t)) == Fields(t.name, t.id, t.properties, t.styles) <==> !Misleading(t)
  {
    StylesAreRead(t.styles);
    var name := if t.name != "" then [("name", t.name)] else [];
    var id := if t.id != "" then [("id", t.id)] else [];
    var style := if t.styles != [] then [("style", StyleText(t.styles))] else [];
    Regroup(name + id, t.properties, style);
    Regroup(name, id, t.properties + style);
    ListIsRead(t.name, t.id, t.properties, t.styles != [], StyleText(t.styles));
  }

  lemma {:induction false} TreeIsRead(t: Tree)
    requires ReadableTree(t)
    ensures TreeOf(ElementOf(t)) == t <==> NowhereMisleading(t)
    decreases t, 1
  {
    AttributesAreRead(t);
    FieldsAreRead(t);
    TreesAreRead(t.children);
  }

  lemma FirstAndRest(ts: seq<Tree>, first: Tree, rest: seq<Tree>)
    requires ts != []
    ensures [first] + rest == ts <==> first == ts[0] && rest == ts[1..]
  {
    HeadAndTail(first, rest);
  }

  lemma {:induction false} TreesAreRead(ts: seq<Tree>)
    requires forall i :: 0 <= i < |ts| ==> ReadableTree(ts[i])
    ensures TreesOf(AllElements(ts)) == ts <==> NoneMisleading(ts)
    decreases ts, 0
  {
    if ts == [] {
    } else {
      TreeIsRead(ts[0]);
      TreesAreRead(ts[1..]);
      FirstAndRest(ts, TreeOf(ElementOf(ts[0])), TreesOf(AllElements(ts[1..])));
      HeadAndTail(ElementOf(ts[0]), AllElements(ts[1..]));
    }
  }

  lemma OneTree(e: Element)
    ensures TreesOf([e]) == [TreeOf(e)]
  {
    assert TreesOf([e]) == [TreeOf(e)] + TreesOf([]);
  }

  /** The printed tree is read back whole, with its tags, names, ids, properties, styles, contents and children in
      order, if and only if no element has a property that can be taken for its name, id or styles. */
  lemma {:induction false} PrintedTreeIsReadBack(t: Tree)
    requires PlainTree(t) && ReadableTree(t)
    ensures ParseTrees(Print(t)) == Some([t]) <==> NowhereMisleading(t)
  {
    PrintingIsRecoverable(t);
    TreeIsRead(t);
    OneTree(ElementOf(t));
  }

  /** A name and a property called "name" print alike. */
  lemma NameCanBeProperty()
    ensures Print(Tree("p", "x", "", [], [], [], "")) == Print(Tree("p", "", "", [("name", "x")], [], [], ""))
  {
    var a, b := Tree("p", "x", "", [], [], [], ""), Tree("p", "", "", [("name", "x")], [], [], "");
    AttributesArePairs(a);
    AttributesArePairs(b);
    assert AttributeList(a) == [("name", "x")] == AttributeList(b);
  }

  /** A leaf, letter by letter. */
  lemma LeafText()
    ensures Print(Tree("p", "", "", [], [], [], "hi")) == "<p>\nhi</p>\n"
  {
    var t := Tree("p", "", "", [], [], [], "hi");
    AttributesArePairs(t);
    assert PropertyText([]) == "" && Texts([]) == [] && Joined([]) == "";
    assert OpenTag(t) == "<" + ("p" + "") + ">\n" && CloseTag(t) == "</" + "p" + ">\n";
  }
}
