/** What `rss()` promises about the document it writes: how many of the
    channel's child elements each field yields (one for a set or defaulted field, none for an
    unset one, one per entry of a list), and that every field, default and
    sub-entity appears in the text as written. */
module RssProperties {
  import opened Optional
  import opened Text
  import opened Rfc822
  import opened Xml
  import opened Entities
  import opened Render

  /** Tag length and first letter, enough to tell the channel's tags apart;
      comparing these numbers is much cheaper for the solver than comparing
      the tag strings themselves. */
  function Signature(tag: string): int {
    if |tag| == 0 then 0 else |tag| * 256 + tag[0] as int
  }

  lemma ChannelSignaturesDistinct()
    ensures forall i, j :: 0 <= i < j < |ChannelTags| ==> Signature(ChannelTags[i]) != Signature(ChannelTags[j])
  {
  }

  /** No tag names two fields of the channel. */
  lemma ChannelTagsDistinct()
    ensures DistinctTags(ChannelTags)
  {
    ChannelSignaturesDistinct();
    forall i, j | 0 <= i < j < |ChannelTags| ensures ChannelTags[i] != ChannelTags[j] {
      assert Signature(ChannelTags[i]) != Signature(ChannelTags[j]);
    }
  }

  /** The channel's children come in the order of ChannelTags: group k holds
      only `ChannelTags[k]` elements, and no tag belongs to two groups. */
  lemma ChannelOrder(f: Feed)
    ensures TaggedGroups(Groups(ChannelTags, ChannelContents(f)), ChannelTags)
  {
    ChannelTagsDistinct();
  }

  /** The number of `ChannelTags[k]` elements among the channel's children is
      the number of elements the k-th field writes. */
  lemma ChannelCount(f: Feed, k: nat, tag: string, count: nat)
    requires k < |ChannelTags| && ChannelTags[k] == tag && |ChannelGroup(f, k)| == count
    ensures CountTag(ChannelChildren(f), tag) == count
  {
    ChannelOrder(f);
    CountTagFlatten(Groups(ChannelTags, ChannelContents(f)), ChannelTags, k);
  }

  /** Every element the channel's fields write is in the document. */
  lemma ChannelElementInRss(f: Feed, k: nat, i: nat, n: Node)
    requires k < |ChannelTags| && i < |ChannelGroup(f, k)| && n == ElementOf(ChannelTags[k], ChannelGroup(f, k)[i])
    ensures Contains(Rss(f), Serialize(n))
  {
    var rss := RssNode(f);
    GroupChildContained("channel", ChannelTags, ChannelContents(f), k, i);
    ChildContained(rss, 0);
    ContainsTransitive(Serialize(rss), Serialize(rss.children[0]), Serialize(n));
    ContainsWithin(XmlDeclaration, Serialize(rss), "", Serialize(n));
    assert XmlDeclaration + Serialize(rss) + "" == Rss(f);
  }

  /** A field that always writes one text element: exactly one `tag` element
      among the channel's children, written `<tag>value</tag>`. */
  lemma SingleTextField(f: Feed, k: nat, tag: string, value: string)
    requires k < |ChannelTags| && ChannelTags[k] == tag && ChannelGroup(f, k) == [TextContent(value)]
    ensures CountTag(ChannelChildren(f), tag) == 1
    ensures Contains(Rss(f), ElementText(tag, value))
  {
    ChannelCount(f, k, tag, 1);
    TextElement(tag, value);
    ChannelElementInRss(f, k, 0, ElementOf(tag, TextContent(value)));
  }

  /** An optional text field: one `tag` element among the channel's
      children, written `<tag>value</tag>`, when set, and none when unset. */
  lemma OptionalTextField(f: Feed, k: nat, tag: string, value: Option<string>)
    requires k < |ChannelTags| && ChannelTags[k] == tag && ChannelGroup(f, k) == TextField(value)
    ensures CountTag(ChannelChildren(f), tag) == Presence(value)
    ensures value.Some? ==> Contains(Rss(f), ElementText(tag, value.value))
  {
    ChannelCount(f, k, tag, Presence(value));
    if value.Some? {
      TextElement(tag, value.value);
      ChannelElementInRss(f, k, 0, ElementOf(tag, TextContent(value.value)));
    }
  }

  /** Exactly one `<title>` among the channel's children, holding the title verbatim. */
  lemma TitleRendered(f: Feed)
    ensures CountTag(ChannelChildren(f), "title") == 1
    ensures Contains(Rss(f), ElementText("title", f.title))
  {
    SingleTextField(f, 0, "title", f.title);
  }

  /** Exactly one `<link>` among the channel's children, holding the link verbatim. */
  lemma LinkRendered(f: Feed)
    ensures CountTag(ChannelChildren(f), "link") == 1
    ensures Contains(Rss(f), ElementText("link", f.link))
  {
    SingleTextField(f, 1, "link", f.link);
  }

  /** Exactly one `<description>` among the channel's children, holding the description verbatim. */
  lemma DescriptionRendered(f: Feed)
    ensures CountTag(ChannelChildren(f), "description") == 1
    ensures Contains(Rss(f), ElementText("description", f.description))
  {
    SingleTextField(f, 2, "description", f.description);
  }

  /** One `<language>` among the channel's children when set, verbatim, and none when unset. */
  lemma LanguageRendered(f: Feed)
    ensures CountTag(ChannelChildren(f), "language") == Presence(f.language)
    ensures f.language.Some? ==> Contains(Rss(f), ElementText("language", f.language.value))
  {
    OptionalTextField(f, 3, "language", f.language);
  }

  /** One `<copyright>` among the channel's children when set, verbatim, and none when unset. */
  lemma CopyrightRendered(f: Feed)
    ensures CountTag(ChannelChildren(f), "copyright") == Presence(f.copyright)
    ensures f.copyright.Some? ==> Contains(Rss(f), ElementText("copyright", f.copyright.value))
  {
    OptionalTextField(f, 4, "copyright", f.copyright);
  }

  /** One `<managingEditor>` among the channel's children when set, verbatim, and none when unset. */
  lemma ManagingEditorRendered(f: Feed)
    ensures CountTag(ChannelChildren(f), "managingEditor") == Presence(f.managingEditor)
    ensures f.managingEditor.Some? ==> Contains(Rss(f), ElementText("managingEditor", f.managingEditor.value))
  {
    OptionalTextField(f, 5, "managingEditor", f.managingEditor);
  }

  /** One `<webMaster>` among the channel's children when set, verbatim, and none when unset. */
  lemma WebMasterRendered(f: Feed)
    ensures CountTag(ChannelChildren(f), "webMaster") == Presence(f.webMaster)
    ensures f.webMaster.Some? ==> Contains(Rss(f), ElementText("webMaster", f.webMaster.value))
  {
    OptionalTextField(f, 6, "webMaster", f.webMaster);
  }

  /** One `<pubDate>` among the channel's children when set, in the RFC 822 form, and none when unset. */
  lemma PubDateRendered(f: Feed)
    ensures CountTag(ChannelChildren(f), "pubDate") == Presence(f.pubDate)
    ensures f.pubDate.Some? ==> Contains(Rss(f), ElementText("pubDate", FormatDate(f.pubDate.value)))
  {
    OptionalTextField(f, 7, "pubDate", Date(f.pubDate));
  }

  /** One `<lastBuildDate>` among the channel's children when set, in the RFC 822
      form, and none when unset. */
  lemma LastBuildDateRendered(f: Feed)
    ensures CountTag(ChannelChildren(f), "lastBuildDate") == Presence(f.lastBuildDate)
    ensures f.lastBuildDate.Some? ==>
      Contains(Rss(f), ElementText("lastBuildDate", FormatDate(f.lastBuildDate.value)))
  {
    OptionalTextField(f, 8, "lastBuildDate", Date(f.lastBuildDate));
  }

  /** Exactly one `<generator>` among the channel's children: the feed's own value when set, the
      library identifier `rfeed v…` otherwise. */
  lemma GeneratorRendered(f: Feed)
    ensures CountTag(ChannelChildren(f), "generator") == 1
    ensures Contains(Rss(f), ElementText("generator", f.generator.GetOr(DefaultGenerator)))
    ensures f.generator.None? ==> Contains(Rss(f), "<generator>rfeed v")
  {
    var e := ElementText("generator", f.generator.GetOr(DefaultGenerator));
    SingleTextField(f, 10, "generator", f.generator.GetOr(DefaultGenerator));
    if f.generator.None? {
      DefaultGeneratorPrefix();
      PrefixContained("<generator>rfeed v", e);
      ContainsTransitive(Rss(f), e, "<generator>rfeed v");
    }
  }

  /** The default generator element starts with `<generator>rfeed v`. */
  lemma DefaultGeneratorPrefix()
    ensures "<generator>rfeed v" <= ElementText("generator", DefaultGenerator)
  {
    ElementTextPrefix("generator", "rfeed v", Version);
    assert "<" + "generator" + ">" + "rfeed v" == "<generator>rfeed v";
  }

  /** Exactly one `<docs>` among the channel's children: the feed's own value when set, the
      library's documentation URL otherwise. */
  lemma DocsRendered(f: Feed)
    ensures CountTag(ChannelChildren(f), "docs") == 1
    ensures Contains(Rss(f), ElementText("docs", f.docs.GetOr(DefaultDocs)))
    ensures f.docs.None? ==>
      Contains(Rss(f), ElementText("docs", "https://github.com/svpino/rfeed/blob/master/README.md"))
  {
    SingleTextField(f, 11, "docs", f.docs.GetOr(DefaultDocs));
  }

  /** One `<ttl>` among the channel's children when set, in decimal, and none when unset. */
  lemma TtlRendered(f: Feed)
    ensures CountTag(ChannelChildren(f), "ttl") == Presence(f.ttl)
    ensures f.ttl.Some? ==> Contains(Rss(f), ElementText("ttl", IntToString(f.ttl.value)))
  {
    OptionalTextField(f, 13, "ttl", if f.ttl.Some? then Some(IntToString(f.ttl.value)) else None);
  }

  /** One `<rating>` among the channel's children when set, verbatim, and none when unset. */
  lemma RatingRendered(f: Feed)
    ensures CountTag(ChannelChildren(f), "rating") == Presence(f.rating)
    ensures f.rating.Some? ==> Contains(Rss(f), ElementText("rating", f.rating.value))
  {
    OptionalTextField(f, 15, "rating", f.rating);
  }

  /** One `<category>` among the channel's children per category of the feed. */
  lemma CategoryCount(f: Feed)
    ensures CountTag(ChannelChildren(f), "category") == |f.categories|
  {
    ChannelCount(f, 9, "category", |f.categories|);
  }

  /** Every category of the feed is written, as `<category>`, in the document. */
  lemma CategoryInRss(f: Feed, i: nat)
    requires i < |f.categories|
    ensures Contains(Rss(f), Serialize(CategoryNode(f.categories[i])))
  {
    ChannelElementInRss(f, 9, i, CategoryNode(f.categories[i]));
  }

  /** One `<cloud>` among the channel's children when set, and none when unset. */
  lemma CloudInRss(f: Feed)
    ensures CountTag(ChannelChildren(f), "cloud") == Presence(f.cloud)
    ensures f.cloud.Some? ==> Contains(Rss(f), Serialize(CloudNode(f.cloud.value)))
  {
    ChannelCount(f, 12, "cloud", Presence(f.cloud));
    if f.cloud.Some? {
      ChannelElementInRss(f, 12, 0, CloudNode(f.cloud.value));
    }
  }

  /** One `<image>` among the channel's children when set, and none when unset. */
  lemma ImageInRss(f: Feed)
    ensures CountTag(ChannelChildren(f), "image") == Presence(f.image)
    ensures f.image.Some? ==> Contains(Rss(f), Serialize(ImageNode(f.image.value)))
  {
    ChannelCount(f, 14, "image", Presence(f.image));
    if f.image.Some? {
      ChannelElementInRss(f, 14, 0, ImageNode(f.image.value));
    }
  }

  /** One `<textInput>` among the channel's children when set, and none when unset. */
  lemma TextInputInRss(f: Feed)
    ensures CountTag(ChannelChildren(f), "textInput") == Presence(f.textInput)
    ensures f.textInput.Some? ==> Contains(Rss(f), Serialize(TextInputNode(f.textInput.value)))
  {
    ChannelCount(f, 16, "textInput", Presence(f.textInput));
    if f.textInput.Some? {
      ChannelElementInRss(f, 16, 0, TextInputNode(f.textInput.value));
    }
  }

  /** One `<skipHours>` among the channel's children when set, and none when unset. */
  lemma SkipHoursInRss(f: Feed)
    ensures CountTag(ChannelChildren(f), "skipHours") == Presence(f.skipHours)
    ensures f.skipHours.Some? ==> Contains(Rss(f), Serialize(SkipHoursNode(f.skipHours.value)))
  {
    ChannelCount(f, 17, "skipHours", Presence(f.skipHours));
    if f.skipHours.Some? {
      ChannelElementInRss(f, 17, 0, SkipHoursNode(f.skipHours.value));
    }
  }

  /** One `<skipDays>` among the channel's children when set, and none when unset. */
  lemma SkipDaysInRss(f: Feed)
    ensures CountTag(ChannelChildren(f), "skipDays") == Presence(f.skipDays)
    ensures f.skipDays.Some? ==> Contains(Rss(f), Serialize(SkipDaysNode(f.skipDays.value)))
  {
    ChannelCount(f, 18, "skipDays", Presence(f.skipDays));
    if f.skipDays.Some? {
      ChannelElementInRss(f, 18, 0, SkipDaysNode(f.skipDays.value));
    }
  }

  /** One `<item>` among the channel's children per item of the feed. */
  lemma ItemCount(f: Feed)
    ensures CountTag(ChannelChildren(f), "item") == |f.items|
  {
    ChannelCount(f, 19, "item", |f.items|);
  }

  /** Every item of the feed is written, as `<item>`, in the document. */
  lemma ItemInRss(f: Feed, i: nat)
    requires i < |f.items|
    ensures Contains(Rss(f), Serialize(ItemNode(f.items[i])))
  {
    ChannelElementInRss(f, 19, i, ItemNode(f.items[i]));
  }
}
