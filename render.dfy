/** `rss()` and the child renderers: a constructed feed becomes an RSS 2.0
    document. Every present field becomes one element holding its value
    verbatim; an unset optional field produces nothing; `generator` and
    `docs` fall back to fixed defaults when unset; containers wrap their
    children; the channel lists its elements in one fixed order. Each
    element is described by its tag and its Content (attributes and
    children); the elements of one field form one group. */
module Render {
  import opened Optional
  import opened Text
  import opened Rfc822
  import opened Xml
  import opened Entities

  /** The library version named by the default generator. */
  const Version := "1.1.1"

  /** Written as `generator` when the feed does not set one. */
  const DefaultGenerator := "rfeed v" + Version

  /** Written as `docs` when the feed does not set one. */
  const DefaultDocs := "https://github.com/svpino/rfeed/blob/master/README.md"

  const XmlDeclaration := "<?xml version=\"1.0\" encoding=\"UTF-8\"?>"

  /** 1 for a set field, 0 for an unset one. */
  function Presence<T>(o: Option<T>): (k: nat)
    ensures k == 1 <==> o.Some?
    ensures k == 0 <==> o.None?
  {
    if o.Some? then 1 else 0
  }

  /** An optional text field: one text element when set, nothing when unset. */
  function TextField(value: Option<string>): (cs: seq<Content>)
    ensures |cs| == Presence(value)
  {
    if value.Some? then [TextContent(value.value)] else []
  }

  /** An optional integer field, written in decimal (`ttl`, `width`, `height`). */
  function IntField(value: Option<int>): (cs: seq<Content>)
    ensures |cs| == Presence(value)
  {
    TextField(if value.Some? then Some(IntToString(value.value)) else None)
  }

  /** An optional date field, written in the RFC 822 form. */
  function DateField(value: Option<Timestamp>): (cs: seq<Content>)
    ensures |cs| == Presence(value)
  {
    TextField(Date(value))
  }

  /** The category name as text, with a `domain` attribute when a domain is set. */
  function CategoryContent(c: Category): Content {
    Content(if c.domain.Some? then [Attribute("domain", c.domain.value)] else [], [Text(c.name)])
  }

  /** `<category>name</category>`, or `<category domain="d">name</category>`. */
  function CategoryNode(c: Category): (n: Node)
    ensures n.Element? && n.tag == "category" && n.children == [Text(c.name)]
    ensures c.domain.None? ==> Serialize(n) == ElementText("category", c.name)
    ensures c.domain.Some? ==> n.attributes == [Attribute("domain", c.domain.value)]
  {
    TextElement("category", c.name);
    ElementOf("category", CategoryContent(c))
  }

  /** A category with a domain carries it as its one attribute. */
  lemma CategoryWithDomain(c: Category)
    requires c.domain.Some?
    ensures Serialize(CategoryNode(c)) == "<category domain=\"" + c.domain.value + "\">" + c.name + "</category>"
  {
    var n, d := CategoryNode(c), c.domain.value;
    var attrs := " domain=\"" + d + "\"";
    assert AttributesText(n.attributes) == attrs by {
      assert AttributesText(n.attributes[1..]) == "";
      assert AttributeText(n.attributes[0]) == attrs;
    }
    assert SerializeAll(n.children) == c.name by {
      assert SerializeAll(n.children[1..]) == "";
    }
    assert StartTag("category", n.attributes) == "<category domain=\"" + d + "\">" by {
      assert "<category domain=\"" == "<" + "category" + " domain=\"";
    }
  }

  /** One category element per category, in the given order. */
  function CategoryContents(cs: seq<Category>): (r: seq<Content>)
    ensures |r| == |cs|
    ensures forall i :: 0 <= i < |cs| ==> ElementOf("category", r[i]) == CategoryNode(cs[i])
  {
    seq(|cs|, i requires 0 <= i < |cs| => CategoryContent(cs[i]))
  }

  /** The text of a cloud port: text as given, a number in decimal. */
  function PortValue(p: Port): string {
    match p
    case PortText(t) => t
    case PortNumber(k) => IntToString(k)
  }

  function CloudContent(c: Cloud): Content {
    Content([Attribute("domain", c.domain), Attribute("port", PortValue(c.port)),
             Attribute("path", c.path), Attribute("registerProcedure", c.registerProcedure),
             Attribute("protocol", c.protocol)], [])
  }

  /** `<cloud domain=".." port=".." path=".." registerProcedure=".." protocol=".."></cloud>`:
      the five attributes in this fixed order, values verbatim, no content. */
  function CloudNode(c: Cloud): (n: Node)
    ensures n.Element? && n.tag == "cloud" && n.children == []
    ensures |n.attributes| == 5
    ensures n.attributes[0] == Attribute("domain", c.domain)
    ensures n.attributes[1] == Attribute("port", PortValue(c.port))
    ensures n.attributes[2] == Attribute("path", c.path)
    ensures n.attributes[3] == Attribute("registerProcedure", c.registerProcedure)
    ensures n.attributes[4] == Attribute("protocol", c.protocol)
  {
    ElementOf("cloud", CloudContent(c))
  }

  const ImageTags := ["url", "title", "link", "width", "height", "description"]

  /** The fields of `<image>`, one group per entry of ImageTags. */
  function ImageContents(im: Image): (groups: seq<seq<Content>>)
    ensures |groups| == |ImageTags|
  {
    [[TextContent(im.url)], [TextContent(im.title)], [TextContent(im.link)],
     IntField(im.width), IntField(im.height), TextField(im.description)]
  }

  function ImageContent(im: Image): Content {
    Content([], Flatten(Groups(ImageTags, ImageContents(im))))
  }

  /** `<image>` with its fields in the order of ImageTags. */
  function ImageNode(im: Image): (n: Node)
    ensures n.Element? && n.tag == "image" && n.attributes == []
  {
    ElementOf("image", ImageContent(im))
  }

  const TextInputTags := ["title", "description", "name", "link"]

  /** The fields of `<textInput>`, one group per entry of TextInputTags. */
  function TextInputContents(t: TextInput): (groups: seq<seq<Content>>)
    ensures |groups| == |TextInputTags|
  {
    [[TextContent(t.title)], [TextContent(t.description)], [TextContent(t.name)], [TextContent(t.link)]]
  }

  function TextInputContent(t: TextInput): Content {
    Content([], Flatten(Groups(TextInputTags, TextInputContents(t))))
  }

  /** `<textInput>` with its fields in the order of TextInputTags. */
  function TextInputNode(t: TextInput): (n: Node)
    ensures n.Element? && n.tag == "textInput" && n.attributes == []
  {
    ElementOf("textInput", TextInputContent(t))
  }

  function SkipHoursContent(h: SkipHours): Content {
    Content([], Elements("hour", seq(|h.hours|, i requires 0 <= i < |h.hours| => TextContent(IntToString(h.hours[i])))))
  }

  /** `<skipHours>` with one `<hour>` per entry, in the caller's order,
      repeated entries repeated. */
  function SkipHoursNode(h: SkipHours): (n: Node)
    ensures n.Element? && n.tag == "skipHours" && n.attributes == []
    ensures |n.children| == |h.hours| && AllTagged(n.children, "hour")
    ensures forall i :: 0 <= i < |h.hours| ==>
      Serialize(n.children[i]) == ElementText("hour", IntToString(h.hours[i]))
  {
    var n := ElementOf("skipHours", SkipHoursContent(h));
    forall i | 0 <= i < |h.hours|
      ensures Serialize(n.children[i]) == ElementText("hour", IntToString(h.hours[i]))
    {
      TextElement("hour", IntToString(h.hours[i]));
    }
    n
  }

  function SkipDaysContent(d: SkipDays): Content {
    Content([], Elements("day", seq(|d.days|, i requires 0 <= i < |d.days| => TextContent(d.days[i]))))
  }

  /** `<skipDays>` with one `<day>` per entry, in the caller's order,
      repeated entries repeated. */
  function SkipDaysNode(d: SkipDays): (n: Node)
    ensures n.Element? && n.tag == "skipDays" && n.attributes == []
    ensures |n.children| == |d.days| && AllTagged(n.children, "day")
    ensures forall i :: 0 <= i < |d.days| ==> Serialize(n.children[i]) == ElementText("day", d.days[i])
  {
    var n := ElementOf("skipDays", SkipDaysContent(d));
    forall i | 0 <= i < |d.days|
      ensures Serialize(n.children[i]) == ElementText("day", d.days[i])
    {
      TextElement("day", d.days[i]);
    }
    n
  }

  const ItemTags := ["title", "link", "description", "author", "category", "comments", "pubDate"]

  /** The fields of `<item>`, one group per entry of ItemTags. */
  function ItemContents(it: Item): (groups: seq<seq<Content>>)
    ensures |groups| == |ItemTags|
  {
    [[TextContent(it.title)], TextField(it.link), [TextContent(it.description)], TextField(it.author),
     CategoryContents(it.categories), TextField(it.comments), DateField(it.pubDate)]
  }

  function ItemContent(it: Item): Content {
    Content([], Flatten(Groups(ItemTags, ItemContents(it))))
  }

  /** `<item>` with its fields in the order of ItemTags. */
  function ItemNode(it: Item): (n: Node)
    ensures n.Element? && n.tag == "item" && n.attributes == []
  {
    ElementOf("item", ItemContent(it))
  }

  /** The channel's element order. */
  const ChannelTags := ["title", "link", "description", "language", "copyright", "managingEditor",
                        "webMaster", "pubDate", "lastBuildDate", "category", "generator", "docs",
                        "cloud", "ttl", "image", "rating", "textInput", "skipHours", "skipDays", "item"]

  /** The elements `<channel>` writes for its k-th field, `ChannelTags[k]`. */
  function ChannelGroup(f: Feed, k: nat): seq<Content>
    requires k < |ChannelTags|
  {
    if k == 0 then [TextContent(f.title)]
    else if k == 1 then [TextContent(f.link)]
    else if k == 2 then [TextContent(f.description)]
    else if k == 3 then TextField(f.language)
    else if k == 4 then TextField(f.copyright)
    else if k == 5 then TextField(f.managingEditor)
    else if k == 6 then TextField(f.webMaster)
    else if k == 7 then DateField(f.pubDate)
    else if k == 8 then DateField(f.lastBuildDate)
    else if k == 9 then CategoryContents(f.categories)
    else if k == 10 then [TextContent(f.generator.GetOr(DefaultGenerator))]
    else if k == 11 then [TextContent(f.docs.GetOr(DefaultDocs))]
    else if k == 12 then (if f.cloud.Some? then [CloudContent(f.cloud.value)] else [])
    else if k == 13 then IntField(f.ttl)
    else if k == 14 then (if f.image.Some? then [ImageContent(f.image.value)] else [])
    else if k == 15 then TextField(f.rating)
    else if k == 16 then (if f.textInput.Some? then [TextInputContent(f.textInput.value)] else [])
    else if k == 17 then (if f.skipHours.Some? then [SkipHoursContent(f.skipHours.value)] else [])
    else if k == 18 then (if f.skipDays.Some? then [SkipDaysContent(f.skipDays.value)] else [])
    else seq(|f.items|, i requires 0 <= i < |f.items| => ItemContent(f.items[i]))
  }

  /** The fields of `<channel>`, one group per entry of ChannelTags. */
  function ChannelContents(f: Feed): (groups: seq<seq<Content>>)
    ensures |groups| == |ChannelTags|
  {
    seq(|ChannelTags|, k requires 0 <= k < |ChannelTags| => ChannelGroup(f, k))
  }

  function ChannelChildren(f: Feed): seq<Node> {
    Flatten(Groups(ChannelTags, ChannelContents(f)))
  }

  /** `<rss version="2.0"><channel>` around the given children. */
  function Envelope(children: seq<Node>): Node {
    Element("rss", [Attribute("version", "2.0")], [Element("channel", [], children)])
  }

  function RssNode(f: Feed): Node {
    Envelope(ChannelChildren(f))
  }

  /** `Feed.rss()`: the XML declaration, then `<rss version="2.0"><channel>…</channel></rss>`. */
  function Rss(f: Feed): string {
    XmlDeclaration + Serialize(RssNode(f))
  }
}
