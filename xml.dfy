/** The XML the feed builder writes, as a tree of elements and text, and its
    serialization: start tag with its attributes in order, the content, then
    the end tag. Values are written verbatim; nothing is escaped. */
module Xml {
  import opened Text

  datatype Attribute = Attribute(name: string, value: string)

  datatype Node =
    | Element(tag: string, attributes: seq<Attribute>, children: seq<Node>)
    | Text(text: string)

  /** ` name="value"` */
  function AttributeText(a: Attribute): string {
    " " + a.name + "=\"" + a.value + "\""
  }

  function AttributesText(attributes: seq<Attribute>): string {
    if attributes == [] then "" else AttributeText(attributes[0]) + AttributesText(attributes[1..])
  }

  function StartTag(tag: string, attributes: seq<Attribute>): string {
    "<" + tag + AttributesText(attributes) + ">"
  }

  function EndTag(tag: string): string {
    "</" + tag + ">"
  }

  function Serialize(n: Node): string
    decreases n, 1
  {
    match n
    case Text(t) => t
    case Element(tag, attributes, children) =>
      StartTag(tag, attributes) + SerializeAll(children) + EndTag(tag)
  }

  function SerializeAll(ns: seq<Node>): string
    decreases ns, 0
  {
    if ns == [] then "" else Serialize(ns[0]) + SerializeAll(ns[1..])
  }

  /** `<tag>value</tag>`, the text form of an element holding one value. */
  function ElementText(tag: string, value: string): string {
    "<" + tag + ">" + value + "</" + tag + ">"
  }

  /** The opening tag and the start of the value begin the element's text. */
  lemma ElementTextPrefix(tag: string, a: string, b: string)
    ensures "<" + tag + ">" + a <= ElementText(tag, a + b)
  {
    assert ElementText(tag, a + b) == ("<" + tag + ">" + a) + (b + "</" + tag + ">");
  }

  /** What an element holds besides its tag: its attributes and its children. */
  datatype Content = Content(attributes: seq<Attribute>, children: seq<Node>)

  /** The content of an element holding one text value. */
  function TextContent(value: string): Content {
    Content([], [Text(value)])
  }

  function ElementOf(tag: string, c: Content): Node {
    Element(tag, c.attributes, c.children)
  }

  /** An element holding one text value is written `<tag>value</tag>`. */
  lemma TextElement(tag: string, value: string)
    ensures Serialize(ElementOf(tag, TextContent(value))) == ElementText(tag, value)
  {
    var n := ElementOf(tag, TextContent(value));
    assert SerializeAll(n.children) == value;
  }

  /** One element with the given tag per content, in order. */
  function Elements(tag: string, cs: seq<Content>): (ns: seq<Node>)
    ensures |ns| == |cs| && AllTagged(ns, tag)
    ensures forall i :: 0 <= i < |cs| ==> ns[i] == ElementOf(tag, cs[i])
  {
    seq(|cs|, i requires 0 <= i < |cs| => ElementOf(tag, cs[i]))
  }

  /** Group k holds the elements tagged `tags[k]` built from `contents[k]`. */
  function Groups(tags: seq<string>, contents: seq<seq<Content>>): (groups: seq<seq<Node>>)
    requires |contents| == |tags|
    ensures |groups| == |tags|
    ensures forall k :: 0 <= k < |tags| ==> groups[k] == Elements(tags[k], contents[k])
    ensures DistinctTags(tags) ==> TaggedGroups(groups, tags)
  {
    seq(|tags|, k requires 0 <= k < |tags| => Elements(tags[k], contents[k]))
  }

  /** The serialization of a sequence is the serializations of its parts, in order. */
  lemma {:induction false} SerializeAllSplit(ns: seq<Node>, i: nat)
    requires i < |ns|
    ensures SerializeAll(ns) == SerializeAll(ns[..i]) + Serialize(ns[i]) + SerializeAll(ns[i + 1..])
  {
    if i > 0 {
      SerializeAllSplit(ns[1..], i - 1);
      assert ns[1..][..i - 1] == ns[1..i];
      assert ns[1..][i..] == ns[i + 1..];
      assert ns[..i][1..] == ns[1..i];
      assert SerializeAll(ns[..i]) == Serialize(ns[0]) + SerializeAll(ns[1..i]);
    } else {
      assert ns[..0] == [];
      assert ns[1..] == ns[i + 1..];
    }
  }

  /** An element's text contains the text of each of its children. */
  lemma ChildContained(n: Node, i: nat)
    requires n.Element? && i < |n.children|
    ensures Contains(Serialize(n), Serialize(n.children[i]))
  {
    var cs := n.children;
    SerializeAllSplit(cs, i);
    ContainsMiddle(SerializeAll(cs[..i]), Serialize(cs[i]), SerializeAll(cs[i + 1..]));
    ContainsWithin(StartTag(n.tag, n.attributes), SerializeAll(cs), EndTag(n.tag), Serialize(cs[i]));
  }

  /** An element whose children are tagged groups contains each element of each group. */
  lemma GroupChildContained(tag: string, tags: seq<string>, contents: seq<seq<Content>>, k: nat, i: nat)
    requires |contents| == |tags| && k < |tags| && i < |contents[k]|
    ensures Contains(Serialize(Element(tag, [], Flatten(Groups(tags, contents)))),
                     Serialize(ElementOf(tags[k], contents[k][i])))
  {
    var g := Groups(tags, contents);
    var x := g[k][i];
    InFlatten(g, k, x);
    var cs := Flatten(g);
    var j :| 0 <= j < |cs| && cs[j] == x;
    ChildContained(Element(tag, [], cs), j);
  }

  /** An element whose children are tagged groups contains `<tags[k]>value</tags[k]>`
      when group k holds a text element with that value. */
  lemma GroupTextContained(tag: string, tags: seq<string>, contents: seq<seq<Content>>, k: nat, i: nat, value: string)
    requires |contents| == |tags| && k < |tags| && i < |contents[k]| && contents[k][i] == TextContent(value)
    ensures Contains(Serialize(Element(tag, [], Flatten(Groups(tags, contents)))), ElementText(tags[k], value))
  {
    GroupChildContained(tag, tags, contents, k, i);
    TextElement(tags[k], value);
  }

  /** The attribute list's text contains each attribute's text. */
  lemma {:induction false} AttributesContained(attributes: seq<Attribute>, i: nat)
    requires i < |attributes|
    ensures Contains(AttributesText(attributes), AttributeText(attributes[i]))
  {
    if i == 0 {
      ContainsMiddle("", AttributeText(attributes[0]), AttributesText(attributes[1..]));
      assert "" + AttributeText(attributes[0]) + AttributesText(attributes[1..]) == AttributesText(attributes);
    } else {
      AttributesContained(attributes[1..], i - 1);
      ContainsWithin(AttributeText(attributes[0]), AttributesText(attributes[1..]), "", AttributeText(attributes[i]));
      assert AttributeText(attributes[0]) + AttributesText(attributes[1..]) + "" == AttributesText(attributes);
    }
  }

  /** An element's text opens with `<tag>` when it has no attributes and
      with `<tag ` when it has some. */
  lemma StartTagContained(n: Node)
    requires n.Element?
    ensures n.attributes == [] ==> Contains(Serialize(n), "<" + n.tag + ">")
    ensures n.attributes != [] ==> Contains(Serialize(n), "<" + n.tag + " ")
    ensures Contains(Serialize(n), "<" + n.tag)
  {
    var s, open := Serialize(n), StartTag(n.tag, n.attributes);
    assert open <= s by {
      assert s == open + (SerializeAll(n.children) + EndTag(n.tag));
    }
    if n.attributes == [] {
      assert open == "<" + n.tag + ">";
      PrefixContained("<" + n.tag + ">", s);
    } else {
      var a := n.attributes[0];
      var p := "<" + n.tag + " ";
      assert p <= open by {
        assert open == p + (a.name + "=\"" + a.value + "\"" + AttributesText(n.attributes[1..]) + ">");
      }
      PrefixContained(p, s);
    }
    assert "<" + n.tag <= s by {
      assert open == "<" + n.tag + (AttributesText(n.attributes) + ">");
    }
    PrefixContained("<" + n.tag, s);
  }

  /** An element's text: `<tag`, the attribute list, then `>`, the content
      and `</tag>`. */
  lemma ElementLayout(n: Node)
    requires n.Element?
    ensures Serialize(n) == "<" + n.tag + AttributesText(n.attributes) + (">" + SerializeAll(n.children) + EndTag(n.tag))
  {
  }

  /** An element's text ends with `>`, its content and `</tag>`. */
  lemma ContentContained(n: Node)
    requires n.Element?
    ensures Contains(Serialize(n), ">" + SerializeAll(n.children) + EndTag(n.tag))
  {
    var front := "<" + n.tag + AttributesText(n.attributes);
    var back := ">" + SerializeAll(n.children) + EndTag(n.tag);
    ElementLayout(n);
    ContainsMiddle(front, back, "");
    assert front + back + "" == front + back;
  }

  /** An element's text closes with `</tag>`. */
  lemma EndTagContained(n: Node)
    requires n.Element?
    ensures Contains(Serialize(n), EndTag(n.tag))
  {
    var front := StartTag(n.tag, n.attributes) + SerializeAll(n.children);
    assert Serialize(n) == front + EndTag(n.tag) + "";
    ContainsMiddle(front, EndTag(n.tag), "");
  }

  /** An element's text holds each of its attributes as `name="value"`. */
  lemma AttributeContained(n: Node, i: nat)
    requires n.Element? && i < |n.attributes|
    ensures Contains(Serialize(n), n.attributes[i].name + "=\"" + n.attributes[i].value + "\"")
  {
    var a := n.attributes[i];
    var pair := a.name + "=\"" + a.value + "\"";
    var s := Serialize(n);
    var front, back := "<" + n.tag, ">" + SerializeAll(n.children) + EndTag(n.tag);
    ElementLayout(n);
    assert Contains(s, AttributeText(a)) by {
      AttributesContained(n.attributes, i);
      ContainsWithin(front, AttributesText(n.attributes), back, AttributeText(a));
    }
    assert Contains(AttributeText(a), pair) by {
      assert AttributeText(a) == " " + pair + "";
      ContainsMiddle(" ", pair, "");
    }
    ContainsTransitive(s, AttributeText(a), pair);
  }

  /** How many of the nodes are elements with the given tag. */
  function CountTag(ns: seq<Node>, tag: string): (k: nat)
    ensures k <= |ns|
  {
    if ns == [] then 0
    else (if ns[0].Element? && ns[0].tag == tag then 1 else 0) + CountTag(ns[1..], tag)
  }

  lemma {:induction false} CountTagAppend(a: seq<Node>, b: seq<Node>, tag: string)
    ensures CountTag(a + b, tag) == CountTag(a, tag) + CountTag(b, tag)
  {
    if a != [] {
      CountTagAppend(a[1..], b, tag);
      assert (a + b)[1..] == a[1..] + b;
    } else {
      assert a + b == b;
    }
  }

  /** The concatenation of a sequence of node groups. */
  function Flatten(groups: seq<seq<Node>>): seq<Node> {
    if groups == [] then [] else groups[0] + Flatten(groups[1..])
  }

  /** Every node of every group is in the concatenation. */
  lemma {:induction false} InFlatten(groups: seq<seq<Node>>, k: nat, x: Node)
    requires k < |groups| && x in groups[k]
    ensures x in Flatten(groups)
  {
    if k > 0 {
      InFlatten(groups[1..], k - 1, x);
    }
  }

  /** Every node is an element with the given tag. */
  predicate AllTagged(ns: seq<Node>, tag: string) {
    forall x :: x in ns ==> x.Element? && x.tag == tag
  }

  predicate DistinctTags(tags: seq<string>) {
    forall i, j :: 0 <= i < j < |tags| ==> tags[i] != tags[j]
  }

  /** Groups in which group k holds only elements tagged `tags[k]`, with no
      tag repeated across groups. */
  predicate TaggedGroups(groups: seq<seq<Node>>, tags: seq<string>) {
    && |groups| == |tags|
    && DistinctTags(tags)
    && (forall k :: 0 <= k < |groups| ==> AllTagged(groups[k], tags[k]))
  }

  /** In tagged groups, the number of elements with tag `tags[k]` in the
      concatenation is exactly the size of group k. */
  lemma {:induction false} CountTagFlatten(groups: seq<seq<Node>>, tags: seq<string>, k: nat)
    requires TaggedGroups(groups, tags) && k < |groups|
    ensures CountTag(Flatten(groups), tags[k]) == |groups[k]|
  {
    CountTagAppend(groups[0], Flatten(groups[1..]), tags[k]);
    assert TaggedGroups(groups[1..], tags[1..]);
    if k == 0 {
      CountTagAbsent(Flatten(groups[1..]), groups[1..], tags[1..], tags[0]);
      CountTagAll(groups[0], tags[0]);
    } else {
      CountTagFlatten(groups[1..], tags[1..], k - 1);
      CountTagNone(groups[0], tags[0], tags[k]);
    }
  }
  /** An element built from groups with distinct tags has, among its
      children, as many `tags[k]` elements as group k has contents. */
  lemma GroupCount(tags: seq<string>, contents: seq<seq<Content>>, k: nat, count: nat)
    requires |contents| == |tags| && DistinctTags(tags) && k < |tags| && |contents[k]| == count
    ensures CountTag(Flatten(Groups(tags, contents)), tags[k]) == count
  {
    CountTagFlatten(Groups(tags, contents), tags, k);
  }


  lemma {:induction false} CountTagAll(ns: seq<Node>, tag: string)
    requires AllTagged(ns, tag)
    ensures CountTag(ns, tag) == |ns|
  {
    if ns != [] {
      CountTagAll(ns[1..], tag);
    }
  }

  lemma {:induction false} CountTagNone(ns: seq<Node>, tag: string, other: string)
    requires AllTagged(ns, tag)
    requires other != tag
    ensures CountTag(ns, other) == 0
  {
    if ns != [] {
      CountTagNone(ns[1..], tag, other);
    }
  }

  /** A tag not among the groups' tags does not occur in their concatenation. */
  lemma {:induction false} CountTagAbsent(ns: seq<Node>, groups: seq<seq<Node>>, tags: seq<string>, other: string)
    requires TaggedGroups(groups, tags) && ns == Flatten(groups)
    requires other !in tags
    ensures CountTag(ns, other) == 0
    decreases groups
  {
    if groups != [] {
      CountTagAppend(groups[0], Flatten(groups[1..]), other);
      CountTagNone(groups[0], tags[0], other);
      assert TaggedGroups(groups[1..], tags[1..]);
      CountTagAbsent(Flatten(groups[1..]), groups[1..], tags[1..], other);
    }
  }
}
