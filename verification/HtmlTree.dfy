/** The HTML tree printer, and a parser that recovers what was printed. */
module HtmlTree {
  import opened Wrappers
  import opened Sequences
  import opened Text

  type Pairs = seq<(string, string)>

  /** The value of a tree of elements. */
  datatype Tree = Tree(elementTag: string, name: string, id: string, properties: Pairs, styles: Pairs,
                       children: seq<Tree>, content: string)

  // ---- What is printed ----

  function PropertyText(properties: Pairs): string {
    if properties == [] then ""
    else
      var n := |properties| - 1;
      PropertyText(properties[..n]) + (" " + properties[n].0 + "=\"" + properties[n].1 + "\" ")
  }

  function StyleText(styles: Pairs): string {
    if styles == [] then ""
    else
      var n := |styles| - 1;
      StyleText(styles[..n]) + (styles[n].0 + ": " + styles[n].1 + "; ")
  }

  function NameText(name: string): string { if name != "" then " name=\"" + name + "\" " else "" }

  function IdText(id: string): string { if id != "" then " id=\"" + id + "\" " else "" }

  function StylesText(styles: Pairs): string {
    if styles != [] then " style=\"" + StyleText(styles) + "\" " else ""
  }

  /** What stands between an element's tag and the '>'. */
  function Attributes(name: string, id: string, properties: Pairs, styles: Pairs): string {
    NameText(name) + IdText(id) + PropertyText(properties) + StylesText(styles)
  }

  function Inner(t: Tree): string { t.elementTag + Attributes(t.name, t.id, t.properties, t.styles) }

  function OpenTag(t: Tree): string { "<" + Inner(t) + ">\n" }

  function CloseTag(t: Tree): string { "</" + t.elementTag + ">\n" }

  /** Texts, each after a blank. */
  function Joined(texts: seq<string>): string {
    if texts == [] then "" else Joined(texts[..|texts| - 1]) + " " + texts[|texts| - 1]
  }

  lemma JoinedSnoc(texts: seq<string>, i: nat)
    requires i < |texts|
    ensures Joined(texts[..i + 1]) == Joined(texts[..i]) + " " + texts[i]
  {
    assert texts[..i + 1][..i] == texts[..i];
  }

  function Print(t: Tree): string
    decreases t, 1
  {
    OpenTag(t) + t.content + Joined(Texts(t.children)) + CloseTag(t)
  }

  function Texts(ts: seq<Tree>): (texts: seq<string>)
    ensures |texts| == |ts|
    decreases ts, 0
  {
    if ts == [] then [] else [Print(ts[0])] + Texts(ts[1..])
  }

  lemma {:induction false} TextsAt(ts: seq<Tree>, i: nat)
    requires i < |ts|
    ensures Texts(ts)[i] == Print(ts[i])
    decreases i
  {
    if i == 0 {
    } else {
      TextsAt(ts[1..], i - 1);
    }
  }

  // ---- The elements ----

  class HtmlElement {
    var elementTag: string
    var name: string
    var id: string
    var properties: Pairs
    var styles: Pairs
    var children: seq<HtmlElement>
    var content: string

    constructor (elementTag: string, name: string := "", id: string := "")
      ensures forall footprint :: this in footprint ==>
                Represents(Tree(elementTag, name, id, [], [], [], ""), footprint)
    {
      this.elementTag, this.name, this.id := elementTag, name, id;
      properties, styles, children, content := [], [], [], "";
    }

    /** This element and what hangs below it are the finite tree t, made of elements of the footprint.
        Children may be shared, but no element is below itself. */
    ghost predicate Represents(t: Tree, footprint: set<HtmlElement>)
      reads footprint
      decreases t
    {
      && this in footprint
      && elementTag == t.elementTag && name == t.name && id == t.id
      && properties == t.properties && styles == t.styles && content == t.content
      && |children| == |t.children|
      && forall i :: 0 <= i < |t.children| ==>
           children[i] in footprint - {this} && children[i].Represents(t.children[i], footprint - {this})
    }

    method AddProperty(property: string, value: string, ghost t: Tree, ghost footprint: set<HtmlElement>)
      requires Represents(t, footprint)
      modifies this`properties
      ensures Represents(t.(properties := t.properties + [(property, value)]), footprint)
    {
      properties := properties + [(property, value)];
      assert forall i :: 0 <= i < |t.children| ==> children[i].Represents(t.children[i], footprint - {this});
    }

    method AddStyle(style: string, value: string, ghost t: Tree, ghost footprint: set<HtmlElement>)
      requires Represents(t, footprint)
      modifies this`styles
      ensures Represents(t.(styles := t.styles + [(style, value)]), footprint)
    {
      styles := styles + [(style, value)];
      assert forall i :: 0 <= i < |t.children| ==> children[i].Represents(t.children[i], footprint - {this});
    }

    method AddContent(content: string, ghost t: Tree, ghost footprint: set<HtmlElement>)
      requires Represents(t, footprint)
      modifies this`content
      ensures Represents(t.(content := t.content + content), footprint)
    {
      this.content := this.content + content;
      assert forall i :: 0 <= i < |t.children| ==> children[i].Represents(t.children[i], footprint - {this});
    }

    /** The child becomes the last one. Only if this element is not below it is the result a tree again. */
    method AddChild(child: HtmlElement, ghost t: Tree, ghost c: Tree, ghost footprint: set<HtmlElement>)
      modifies this`children
      ensures children == old(children) + [child]
      ensures old(Represents(t, footprint)) && child in footprint - {this}
              && old(child.Represents(c, footprint - {this})) ==>
                Represents(t.(children := t.children + [c]), footprint)
    {
      children := children + [child];
      if old(Represents(t, footprint)) && child in footprint - {this} && old(child.Represents(c, footprint - {this})) {
        assert child.Represents(c, footprint - {this});
        assert forall i :: 0 <= i < |t.children| ==> children[i].Represents(t.children[i], footprint - {this});
      }
    }

    method ToString(ghost t: Tree, ghost footprint: set<HtmlElement>) returns (result: string)
      requires Represents(t, footprint)
      ensures result == Print(t)
      decreases t, 1
    {
      var attributes := AttributesToString();
      result := "<" + (elementTag + attributes);
      result := result + ">\n";
      assert result == OpenTag(t);
      result := result + content;
      var inside := ChildrenToString(t, footprint);
      result := result + inside;
      result := result + ("</" + elementTag + ">\n");
    }

    method ChildrenToString(ghost t: Tree, ghost footprint: set<HtmlElement>) returns (result: string)
      requires Represents(t, footprint)
      ensures result == Joined(Texts(t.children))
      decreases t, 0
    {
      result := "";
      for i := 0 to |children|
        invariant result == Joined(Texts(t.children)[..i])
      {
        var child := children[i].ToString(t.children[i], footprint - {this});
        TextsAt(t.children, i);
        JoinedSnoc(Texts(t.children), i);
        result := result + " " + child;
      }
      assert Texts(t.children)[..|t.children|] == Texts(t.children);
    }

    method AttributesToString() returns (result: string)
      ensures result == Attributes(name, id, properties, styles)
    {
      result := "";
      if name != "" {
        result := result + (" name=\"" + name + "\" ");
      }
      assert result == NameText(name);
      if id != "" {
        result := result + (" id=\"" + id + "\" ");
      }
      assert result == NameText(name) + IdText(id);
      var propertyText := PropertiesToString();
      result := result + propertyText;
      ghost var before := result;
      if styles != [] {
        var styleText := StylesToString();
        result := result + (" style=\"" + styleText + "\" ");
      }
      assert result == before + StylesText(styles);
    }

    method PropertiesToString() returns (result: string)
      ensures result == PropertyText(properties)
    {
      result := "";
      for i := 0 to |properties|
        invariant result == PropertyText(properties[..i])
      {
        var property := properties[i];
        assert properties[..i + 1][..i] == properties[..i];
        result := result + (" " + property.0 + "=\"" + property.1 + "\" ");
      }
      assert properties[..|properties|] == properties;
    }

    method StylesToString() returns (result: string)
      ensures result == StyleText(styles)
    {
      result := "";
      for i := 0 to |styles|
        invariant result == StyleText(styles[..i])
      {
        var style := styles[i];
        assert styles[..i + 1][..i] == styles[..i];
        result := result + (style.0 + ": " + style.1 + "; ");
      }
      assert styles[..|styles|] == styles;
    }
  }

  // ---- A parser that knows nothing of the printer ----

  /** A closing tag; or an opening one, with its attributes and the text up to the next tag. */
  datatype Event = Opened(tag: string, attributes: string, text: string) | Closed(tag: string)

  /** What stands between '<' and '>', and the text behind it. The name of an opening tag ends at the first blank. */
  function EventOf(inner: string, text: string): Event {
    var n := Find(inner, ' ');
    if inner != "" && inner[0] == '/' then Closed(inner[1..]) else Opened(inner[..n], inner[n..], text)
  }

  function Events(s: string): seq<Event>
    decreases |s|
  {
    if s == "" then []
    else if s[0] != '<' then Events(s[1..])
    else
      var end := Find(s[1..], '>');
      var rest := if end + 2 <= |s| then s[end + 2..] else "";
      [EventOf(s[1..][..end], rest[..Find(rest, '<')])] + Events(rest)
  }

  /** An element that was read. */
  datatype Element = Element(tag: string, attributes: string, content: string, children: seq<Element>)

  /** An element that has been opened, and what stood in front of it on its level. */
  datatype Frame = Frame(tag: string, attributes: string, text: string, done: seq<Element>)

  /** The text behind an opening tag starts with a line end, and has a blank at its end if a child follows. */
  function ContentOf(text: string, hasChildren: bool): string {
    var content := if text == "" then "" else text[1..];
    if hasChildren && content != "" then content[..|content| - 1] else content
  }

  /** Reads events with a stack of open elements; fails if a tag is closed that is not the last opened, or
      if elements stay open. */
  function Build(events: seq<Event>, stack: seq<Frame>, done: seq<Element>): Option<seq<Element>>
    decreases |events|
  {
    if events == [] then (if stack == [] then Some(done) else None)
    else
      match events[0]
      case Opened(tag, attributes, text) => Build(events[1..], [Frame(tag, attributes, text, done)] + stack, [])
      case Closed(tag) =>
        if stack == [] || stack[0].tag != tag then None
        else
          var content := ContentOf(stack[0].text, done != []);
          Build(events[1..], stack[1..], stack[0].done + [Element(tag, stack[0].attributes, content, done)])
  }

  function Parse(s: string): Option<seq<Element>> { Build(Events(s), [], []) }

  // ---- Printing, then parsing ----

  predicate Plain(s: string) { '<' !in s && '>' !in s }

  predicate PlainPairs(pairs: Pairs) { forall i :: 0 <= i < |pairs| ==> Plain(pairs[i].0) && Plain(pairs[i].1) }

  /** No string of the tree holds an angle bracket; a tag holds no blank and does not start with '/'. */
  predicate PlainTree(t: Tree)
    decreases t
  {
    && Plain(t.elementTag) && ' ' !in t.elementTag && (t.elementTag != "" ==> t.elementTag[0] != '/')
    && Plain(t.name) && Plain(t.id) && PlainPairs(t.properties) && PlainPairs(t.styles) && Plain(t.content)
    && forall i :: 0 <= i < |t.children| ==> PlainTree(t.children[i])
  }

  function AttributesOf(t: Tree): string { Attributes(t.name, t.id, t.properties, t.styles) }

  /** What reading the tree's text should give. */
  function ElementOf(t: Tree): Element
    decreases t, 1
  {
    Element(t.elementTag, AttributesOf(t), t.content, AllElements(t.children))
  }

  function AllElements(ts: seq<Tree>): seq<Element>
    decreases ts, 0
  {
    if ts == [] then [] else [ElementOf(ts[0])] + AllElements(ts[1..])
  }

  function TextBehind(t: Tree): string { "\n" + t.content + (if t.children == [] then "" else " ") }

  function EventsOf(t: Tree): seq<Event>
    decreases t, 1
  {
    [Opened(t.elementTag, AttributesOf(t), TextBehind(t))] + EventsOfAll(t.children) + [Closed(t.elementTag)]
  }

  function EventsOfAll(ts: seq<Tree>): seq<Event>
    decreases ts, 0
  {
    if ts == [] then [] else EventsOf(ts[0]) + EventsOfAll(ts[1..])
  }

  lemma {:induction false} EventsAfterText(text: string, s: string)
    requires Plain(text)
    ensures Events(text + s) == Events(s)
    decreases |text|
  {
    if text == "" {
      assert text + s == s;
    } else {
      assert (text + s)[1..] == text[1..] + s;
      EventsAfterText(text[1..], s);
    }
  }

  lemma EventsAfterTag(inner: string, text: string, s: string)
    requires Plain(inner) && Plain(text) && s != "" && s[0] == '<'
    ensures Events("<" + inner + ">" + (text + s)) == [EventOf(inner, text)] + Events(s)
  {
    var all, rest := "<" + inner + ">" + (text + s), text + s;
    assert all[1..] == inner + ['>'] + rest;
    FindAfter(inner, '>', rest);
    assert all[1..][..|inner|] == inner && all[|inner| + 2..] == rest;
    FindIs(rest, '<', |text|);
    assert rest[..|text|] == text;
    EventsAfterText(text, s);
  }

  lemma EventsAfterClosing(tag: string, s: string)
    requires Plain(tag)
    ensures Events("</" + tag + ">\n" + s) == [Closed(tag)] + Events(s)
  {
    var inner := "/" + tag;
    var all, rest := "</" + tag + ">\n" + s, "\n" + s;
    assert all[1..] == inner + ['>'] + rest;
    FindAfter(inner, '>', rest);
    assert all[1..][..|inner|] == inner && inner[1..] == tag && all[|inner| + 2..] == rest;
    EventsAfterText("\n", s);
  }

  lemma {:induction false} PropertyTextIsPlain(properties: Pairs)
    requires PlainPairs(properties)
    ensures Plain(PropertyText(properties)) && Plain(StyleText(properties))
    decreases |properties|
  {
    if properties == [] {
    } else {
      PropertyTextIsPlain(properties[..|properties| - 1]);
    }
  }

  lemma {:induction false} PropertyTextStart(properties: Pairs)
    ensures PropertyText(properties) == "" || PropertyText(properties)[0] == ' '
    decreases |properties|
  {
    if properties == [] {
    } else {
      PropertyTextStart(properties[..|properties| - 1]);
    }
  }

  /** Harmless text that does not run into the tag before it. */
  predicate Apart(s: string) { Plain(s) && (s == "" || s[0] == ' ') }

  lemma BothApart(a: string, b: string)
    requires Apart(a) && Apart(b)
    ensures Apart(a + b)
  {
  }

  lemma NameAndIdAreApart(name: string, id: string)
    requires Plain(name) && Plain(id)
    ensures Apart(NameText(name)) && Apart(IdText(id))
  {
  }

  lemma StylesAreApart(styles: Pairs)
    requires PlainPairs(styles)
    ensures Apart(StylesText(styles))
  {
    PropertyTextIsPlain(styles);
  }

  /** The attributes are empty or start with a blank, so they do not run into the tag. */
  lemma AttributesAreApart(t: Tree)
    requires PlainTree(t)
    ensures Apart(Attributes(t.name, t.id, t.properties, t.styles))
  {
    PropertyTextIsPlain(t.properties);
    PropertyTextStart(t.properties);
    NameAndIdAreApart(t.name, t.id);
    StylesAreApart(t.styles);
    BothApart(NameText(t.name), IdText(t.id));
    BothApart(NameText(t.name) + IdText(t.id), PropertyText(t.properties));
    BothApart(NameText(t.name) + IdText(t.id) + PropertyText(t.properties), StylesText(t.styles));
  }

  lemma EventOfOpenTag(t: Tree, text: string)
    requires PlainTree(t)
    ensures EventOf(Inner(t), text) == Opened(t.elementTag, AttributesOf(t), text)
  {
    AttributesAreApart(t);
    var a := AttributesOf(t);
    FindIs(t.elementTag + a, ' ', |t.elementTag|);
    assert (t.elementTag + a)[..|t.elementTag|] == t.elementTag && (t.elementTag + a)[|t.elementTag|..] == a;
  }

  /** What stands behind the content is a tag, or a blank and a tag. */
  predicate Follows(t: Tree, inside: string) {
    if t.children == [] then inside != "" && inside[0] == '<'
    else |inside| >= 2 && inside[0] == ' ' && inside[1] == '<'
  }

  lemma RegroupFour(a: string, b: string, c: string, d: string)
    ensures a + b + c + d == a + (b + c + d)
  {
    Regroup(a, b, c);
    Regroup(a, b + c, d);
  }

  lemma TextBehindIsApart(t: Tree, inside: string)
    requires Follows(t, inside)
    ensures var next := if t.children == [] then inside else inside[1..];
            OpenTag(t) + t.content + inside == "<" + Inner(t) + ">" + (TextBehind(t) + next)
  {
    var tag := "<" + Inner(t) + ">";
    assert OpenTag(t) == tag + "\n";
    RegroupFour(tag, "\n", t.content, inside);
    if t.children == [] {
      assert "\n" + t.content + "" == "\n" + t.content;
    } else {
      assert inside == " " + inside[1..];
      Regroup("\n" + t.content, " ", inside[1..]);
    }
  }

  lemma InnerIsPlain(t: Tree)
    requires PlainTree(t)
    ensures Plain(Inner(t)) && Plain(TextBehind(t))
  {
    AttributesAreApart(t);
  }

  lemma EventsFromTag(t: Tree, inside: string)
    requires Follows(t, inside)
    ensures var next := if t.children == [] then inside else inside[1..];
            next != "" && next[0] == '<' && Events(inside) == Events(next)
  {
    if t.children != [] {
      EventsAfterText(" ", inside[1..]);
      assert inside == " " + inside[1..];
    }
  }

  lemma EventsAfterOpenTag(t: Tree, inside: string)
    requires PlainTree(t) && Follows(t, inside)
    ensures Events(OpenTag(t) + t.content + inside)
         == [Opened(t.elementTag, AttributesOf(t), TextBehind(t))] + Events(inside)
  {
    var next := if t.children == [] then inside else inside[1..];
    InnerIsPlain(t);
    EventsFromTag(t, inside);
    TextBehindIsApart(t, inside);
    EventsAfterTag(Inner(t), TextBehind(t), next);
    EventOfOpenTag(t, TextBehind(t));
  }

  lemma EventsAfterCloseTag(t: Tree, rest: string)
    requires PlainTree(t)
    ensures Events(CloseTag(t) + rest) == [Closed(t.elementTag)] + Events(rest)
  {
    EventsAfterClosing(t.elementTag, rest);
  }

  lemma {:induction false} JoinedFromFirst(texts: seq<string>)
    requires texts != []
    ensures Joined(texts) == " " + texts[0] + Joined(texts[1..])
    decreases |texts|
  {
    var n := |texts| - 1;
    if n == 0 {
      assert Joined(texts) == "" + " " + texts[0];
    } else {
      JoinedFromFirst(texts[..n]);
      assert texts[..n][1..] == texts[1..][..n - 1];
      Regroup(" " + texts[0], Joined(texts[..n][1..]), " ");
      Regroup(" " + texts[0], Joined(texts[..n][1..]) + " ", texts[n]);
    }
  }

  lemma TextsFromFirst(ts: seq<Tree>)
    requires ts != []
    ensures Joined(Texts(ts)) == " " + Print(ts[0]) + Joined(Texts(ts[1..]))
  {
    HeadAndTail(Print(ts[0]), Texts(ts[1..]));
    JoinedFromFirst(Texts(ts));
  }

  lemma PrintStarts(t: Tree)
    ensures |Print(t)| > 0 && Print(t)[0] == '<'
  {
    assert OpenTag(t)[0] == '<';
  }

  lemma TagFollows(t: Tree, s: string)
    ensures Follows(t, Joined(Texts(t.children)) + (CloseTag(t) + s))
  {
    if t.children == [] {
      assert Joined(Texts(t.children)) + (CloseTag(t) + s) == CloseTag(t) + s;
    } else {
      TextsFromFirst(t.children);
      PrintStarts(t.children[0]);
    }
  }

  lemma {:induction false} EventsOfPrint(t: Tree, s: string)
    requires PlainTree(t)
    ensures Events(Print(t) + s) == EventsOf(t) + Events(s)
    decreases t, 1
  {
    var afterChildren := CloseTag(t) + s;
    var afterContent := Joined(Texts(t.children)) + afterChildren;
    var front, inside := OpenTag(t) + t.content, EventsOfAll(t.children);
    var open := [Opened(t.elementTag, AttributesOf(t), TextBehind(t))];
    Regroup(front + Joined(Texts(t.children)), CloseTag(t), s);
    Regroup(front, Joined(Texts(t.children)), afterChildren);
    TagFollows(t, s);
    EventsAfterOpenTag(t, afterContent);
    EventsOfTexts(t.children, afterChildren);
    EventsAfterCloseTag(t, s);
    Regroup(open + inside, [Closed(t.elementTag)], Events(s));
    Regroup(open, inside, [Closed(t.elementTag)] + Events(s));
  }

  lemma EventsOfTwo(first: string, rest: string, s: string, ofFirst: seq<Event>, ofRest: seq<Event>)
    requires Events(first + (rest + s)) == ofFirst + Events(rest + s)
    requires Events(rest + s) == ofRest + Events(s)
    ensures Events(" " + first + rest + s) == ofFirst + ofRest + Events(s)
  {
    EventsAfterText(" ", first + (rest + s));
    Regroup(" " + first, rest, s);
    Regroup(" ", first, rest + s);
    Regroup(ofFirst, ofRest, Events(s));
  }

  lemma {:induction false} EventsOfTexts(ts: seq<Tree>, s: string)
    requires forall i :: 0 <= i < |ts| ==> PlainTree(ts[i])
    ensures Events(Joined(Texts(ts)) + s) == EventsOfAll(ts) + Events(s)
    decreases ts, 0
  {
    if ts == [] {
      assert Joined(Texts(ts)) + s == s;
    } else {
      TextsFromFirst(ts);
      var first, rest := Print(ts[0]), Joined(Texts(ts[1..]));
      EventsOfTexts(ts[1..], s);
      EventsOfPrint(ts[0], rest + s);
      EventsOfTwo(first, rest, s, EventsOf(ts[0]), EventsOfAll(ts[1..]));
    }
  }

  lemma ContentIsRead(t: Tree)
    ensures ContentOf(TextBehind(t), t.children != []) == t.content
  {
    assert TextBehind(t)[1..] == t.content + (if t.children == [] then "" else " ");
  }

  lemma BuildOfClosing(tag: string, events: seq<Event>, frame: Frame, stack: seq<Frame>, done: seq<Element>)
    requires frame.tag == tag
    ensures Build([Closed(tag)] + events, [frame] + stack, done)
         == Build(events, stack, frame.done + [Element(tag, frame.attributes, ContentOf(frame.text, done != []), done)])
  {
    assert ([Closed(tag)] + events)[1..] == events && ([frame] + stack)[1..] == stack;
  }

  lemma BuildOfOpening(tag: string, attributes: string, text: string, events: seq<Event>, stack: seq<Frame>,
                       done: seq<Element>)
    ensures Build([Opened(tag, attributes, text)] + events, stack, done)
         == Build(events, [Frame(tag, attributes, text, done)] + stack, [])
  {
    assert ([Opened(tag, attributes, text)] + events)[1..] == events;
  }

  lemma {:induction false} BuildOfTree(t: Tree, events: seq<Event>, stack: seq<Frame>, done: seq<Element>)
    ensures Build(EventsOf(t) + events, stack, done) == Build(events, stack, done + [ElementOf(t)])
    decreases t, 1
  {
    var open, close := [Opened(t.elementTag, AttributesOf(t), TextBehind(t))], [Closed(t.elementTag)];
    var frame := Frame(t.elementTag, AttributesOf(t), TextBehind(t), done);
    var inside, kids := EventsOfAll(t.children), AllElements(t.children);
    Regroup(open + inside, close, events);
    Regroup(open, inside, close + events);
    BuildOfOpening(t.elementTag, AttributesOf(t), TextBehind(t), inside + (close + events), stack, done);
    BuildOfTrees(t.children, close + events, [frame] + stack, []);
    assert [] + kids == kids;
    BuildOfClosing(t.elementTag, events, frame, stack, kids);
    ContentIsRead(t);
  }

  lemma {:induction false} BuildOfTrees(ts: seq<Tree>, events: seq<Event>, stack: seq<Frame>, done: seq<Element>)
    ensures Build(EventsOfAll(ts) + events, stack, done) == Build(events, stack, done + AllElements(ts))
    decreases ts, 0
  {
    if ts == [] {
      assert EventsOfAll(ts) + events == events && done + AllElements(ts) == done;
    } else {
      Regroup(EventsOf(ts[0]), EventsOfAll(ts[1..]), events);
      BuildOfTree(ts[0], EventsOfAll(ts[1..]) + events, stack, done);
      BuildOfTrees(ts[1..], events, stack, done + [ElementOf(ts[0])]);
      Regroup(done, [ElementOf(ts[0])], AllElements(ts[1..]));
    }
  }

  /** The printed tree is a balanced sequence of tags, and parsing it gives back the tree of its tags, each with the
      text of its attributes and its content. */
  lemma {:induction false} PrintingIsRecoverable(t: Tree)
    requires PlainTree(t)
    ensures Parse(Print(t)) == Some([ElementOf(t)])
  {
    EventsOfPrint(t, "");
    assert Print(t) + "" == Print(t) && EventsOf(t) + [] == EventsOf(t);
    BuildOfTree(t, [], [], []);
    assert [] + [ElementOf(t)] == [ElementOf(t)];
  }
}
