/** What the child renderers write for one sub-entity, independently of the
    feed around it: the element's opening and closing tags, and each field
    as `<tag>value</tag>` or, for `cloud`, as a `name="value"` attribute. */
module ElementProperties {
  import opened Text
  import opened Rfc822
  import opened Xml
  import opened Entities
  import opened Render

  /** The texts the sub-entity elements open with. Stated once here so that
      the solver compares these literals outside the larger proofs below. */
  lemma OpeningTexts()
    ensures "<" + "cloud" + " " == "<cloud "
    ensures "<" + "image" + ">" == "<image>"
    ensures "<" + "textInput" + ">" == "<textInput>"
    ensures "<" + "skipHours" + ">" == "<skipHours>"
    ensures "<" + "skipDays" + ">" == "<skipDays>"
    ensures "<" + "item" + ">" == "<item>"
    ensures "<" + "category" == "<category"
  {
  }

  /** The texts the sub-entity elements close with (kept apart for the same
      reason as OpeningTexts). */
  lemma ClosingTexts()
    ensures EndTag("cloud") == "</cloud>"
    ensures EndTag("image") == "</image>"
    ensures EndTag("textInput") == "</textInput>"
    ensures EndTag("skipHours") == "</skipHours>"
    ensures EndTag("skipDays") == "</skipDays>"
    ensures EndTag("item") == "</item>"
    ensures EndTag("category") == "</category>"
  {
  }

  /** No tag names two fields of an image, a text input or an item. */
  lemma FieldTagsDistinct()
    ensures DistinctTags(ImageTags) && DistinctTags(TextInputTags) && DistinctTags(ItemTags)
  {
  }

  /** `<cloud ` opens the element, each of the five attributes appears as
      `name="value"`, and `</cloud>` closes it. */
  lemma CloudRendered(c: Cloud)
    ensures Contains(Serialize(CloudNode(c)), "<cloud ")
    ensures Contains(Serialize(CloudNode(c)), "domain" + "=\"" + c.domain + "\"")
    ensures Contains(Serialize(CloudNode(c)), "port" + "=\"" + PortValue(c.port) + "\"")
    ensures Contains(Serialize(CloudNode(c)), "path" + "=\"" + c.path + "\"")
    ensures Contains(Serialize(CloudNode(c)), "registerProcedure" + "=\"" + c.registerProcedure + "\"")
    ensures Contains(Serialize(CloudNode(c)), "protocol" + "=\"" + c.protocol + "\"")
    ensures Contains(Serialize(CloudNode(c)), "</cloud>")
  {
    var n := CloudNode(c);
    OpeningTexts();
    ClosingTexts();
    StartTagContained(n);
    AttributeContained(n, 0);
    AttributeContained(n, 1);
    AttributeContained(n, 2);
    AttributeContained(n, 3);
    AttributeContained(n, 4);
    EndTagContained(n);
  }

  /** `<image>` … `</image>` around url, title and link. */
  lemma ImageRendered(im: Image)
    ensures Contains(Serialize(ImageNode(im)), "<image>")
    ensures Contains(Serialize(ImageNode(im)), ElementText("url", im.url))
    ensures Contains(Serialize(ImageNode(im)), ElementText("title", im.title))
    ensures Contains(Serialize(ImageNode(im)), ElementText("link", im.link))
    ensures Contains(Serialize(ImageNode(im)), "</image>")
  {
    var n, groups := ImageNode(im), ImageContents(im);
    GroupTextContained("image", ImageTags, groups, 0, 0, im.url);
    GroupTextContained("image", ImageTags, groups, 1, 0, im.title);
    GroupTextContained("image", ImageTags, groups, 2, 0, im.link);
    OpeningTexts();
    ClosingTexts();
    StartTagContained(n);
    EndTagContained(n);
  }

  /** Width and height, in decimal, and the description appear in `<image>`
      when they are set. */
  lemma ImageOptionalRendered(im: Image)
    ensures im.width.Some? ==> Contains(Serialize(ImageNode(im)), ElementText("width", IntToString(im.width.value)))
    ensures im.height.Some? ==> Contains(Serialize(ImageNode(im)), ElementText("height", IntToString(im.height.value)))
    ensures im.description.Some? ==> Contains(Serialize(ImageNode(im)), ElementText("description", im.description.value))
  {
    var groups := ImageContents(im);
    if im.width.Some? {
      GroupTextContained("image", ImageTags, groups, 3, 0, IntToString(im.width.value));
    }
    if im.height.Some? {
      GroupTextContained("image", ImageTags, groups, 4, 0, IntToString(im.height.value));
    }
    if im.description.Some? {
      GroupTextContained("image", ImageTags, groups, 5, 0, im.description.value);
    }
  }

  /** Among the children of `<image>`: one url, title and link each, and one
      width, height or description when it is set and none when it is not. */
  lemma ImageFieldCounts(im: Image)
    ensures CountTag(ImageNode(im).children, "url") == 1
    ensures CountTag(ImageNode(im).children, "title") == 1
    ensures CountTag(ImageNode(im).children, "link") == 1
    ensures CountTag(ImageNode(im).children, "width") == Presence(im.width)
    ensures CountTag(ImageNode(im).children, "height") == Presence(im.height)
    ensures CountTag(ImageNode(im).children, "description") == Presence(im.description)
  {
    var groups := ImageContents(im);
    FieldTagsDistinct();
    GroupCount(ImageTags, groups, 0, 1);
    GroupCount(ImageTags, groups, 1, 1);
    GroupCount(ImageTags, groups, 2, 1);
    GroupCount(ImageTags, groups, 3, Presence(im.width));
    GroupCount(ImageTags, groups, 4, Presence(im.height));
    GroupCount(ImageTags, groups, 5, Presence(im.description));
  }

  /** `<textInput>` … `</textInput>` around its four fields. */
  lemma TextInputRendered(t: TextInput)
    ensures Contains(Serialize(TextInputNode(t)), "<textInput>")
    ensures Contains(Serialize(TextInputNode(t)), ElementText("title", t.title))
    ensures Contains(Serialize(TextInputNode(t)), ElementText("description", t.description))
    ensures Contains(Serialize(TextInputNode(t)), ElementText("name", t.name))
    ensures Contains(Serialize(TextInputNode(t)), ElementText("link", t.link))
    ensures Contains(Serialize(TextInputNode(t)), "</textInput>")
  {
    var n, groups := TextInputNode(t), TextInputContents(t);
    GroupTextContained("textInput", TextInputTags, groups, 0, 0, t.title);
    GroupTextContained("textInput", TextInputTags, groups, 1, 0, t.description);
    GroupTextContained("textInput", TextInputTags, groups, 2, 0, t.name);
    GroupTextContained("textInput", TextInputTags, groups, 3, 0, t.link);
    OpeningTexts();
    ClosingTexts();
    StartTagContained(n);
    EndTagContained(n);
  }

  /** Among the children of `<textInput>`: exactly one of each of its four fields. */
  lemma TextInputFieldCounts(t: TextInput)
    ensures CountTag(TextInputNode(t).children, "title") == 1
    ensures CountTag(TextInputNode(t).children, "description") == 1
    ensures CountTag(TextInputNode(t).children, "name") == 1
    ensures CountTag(TextInputNode(t).children, "link") == 1
  {
    var groups := TextInputContents(t);
    FieldTagsDistinct();
    GroupCount(TextInputTags, groups, 0, 1);
    GroupCount(TextInputTags, groups, 1, 1);
    GroupCount(TextInputTags, groups, 2, 1);
    GroupCount(TextInputTags, groups, 3, 1);
  }

  /** `<skipHours>` … `</skipHours>` around one `<hour>` per entry. */
  lemma SkipHoursRendered(h: SkipHours)
    ensures Contains(Serialize(SkipHoursNode(h)), "<skipHours>")
    ensures forall i :: 0 <= i < |h.hours| ==>
      Contains(Serialize(SkipHoursNode(h)), ElementText("hour", IntToString(h.hours[i])))
    ensures Contains(Serialize(SkipHoursNode(h)), "</skipHours>")
  {
    var n := SkipHoursNode(h);
    forall i | 0 <= i < |h.hours|
      ensures Contains(Serialize(n), ElementText("hour", IntToString(h.hours[i])))
    {
      ChildContained(n, i);
    }
    OpeningTexts();
    ClosingTexts();
    StartTagContained(n);
    EndTagContained(n);
  }

  /** `<skipDays>` … `</skipDays>` around one `<day>` per entry. */
  lemma SkipDaysRendered(d: SkipDays)
    ensures Contains(Serialize(SkipDaysNode(d)), "<skipDays>")
    ensures forall i :: 0 <= i < |d.days| ==> Contains(Serialize(SkipDaysNode(d)), ElementText("day", d.days[i]))
    ensures Contains(Serialize(SkipDaysNode(d)), "</skipDays>")
  {
    var n := SkipDaysNode(d);
    forall i | 0 <= i < |d.days|
      ensures Contains(Serialize(n), ElementText("day", d.days[i]))
    {
      ChildContained(n, i);
    }
    OpeningTexts();
    ClosingTexts();
    StartTagContained(n);
    EndTagContained(n);
  }

  /** A category with a domain is written with `<category`, then
      `domain="d"`, then `>name</category>`. */
  lemma CategoryRendered(c: Category)
    requires c.domain.Some?
    ensures Contains(Serialize(CategoryNode(c)), "<category")
    ensures Contains(Serialize(CategoryNode(c)), "domain" + "=\"" + c.domain.value + "\"")
    ensures Contains(Serialize(CategoryNode(c)), ">" + c.name + "</category>")
  {
    var n := CategoryNode(c);
    OpeningTexts();
    ClosingTexts();
    StartTagContained(n);
    AttributeContained(n, 0);
    assert SerializeAll(n.children) == c.name by {
      assert SerializeAll(n.children[1..]) == "";
    }
    ContentContained(n);
  }

  /** `<item>` … `</item>` around title and description. */
  lemma ItemRendered(it: Item)
    ensures Contains(Serialize(ItemNode(it)), "<item>")
    ensures Contains(Serialize(ItemNode(it)), ElementText("title", it.title))
    ensures Contains(Serialize(ItemNode(it)), ElementText("description", it.description))
    ensures Contains(Serialize(ItemNode(it)), "</item>")
  {
    var n, groups := ItemNode(it), ItemContents(it);
    GroupTextContained("item", ItemTags, groups, 0, 0, it.title);
    GroupTextContained("item", ItemTags, groups, 2, 0, it.description);
    OpeningTexts();
    ClosingTexts();
    StartTagContained(n);
    EndTagContained(n);
  }

  /** Link, author, comments and the RFC 822 pubDate appear in `<item>` when
      they are set. */
  lemma ItemOptionalRendered(it: Item)
    ensures it.link.Some? ==> Contains(Serialize(ItemNode(it)), ElementText("link", it.link.value))
    ensures it.author.Some? ==> Contains(Serialize(ItemNode(it)), ElementText("author", it.author.value))
    ensures it.comments.Some? ==> Contains(Serialize(ItemNode(it)), ElementText("comments", it.comments.value))
    ensures it.pubDate.Some? ==>
      Contains(Serialize(ItemNode(it)), ElementText("pubDate", FormatDate(it.pubDate.value)))
  {
    var groups := ItemContents(it);
    if it.link.Some? {
      GroupTextContained("item", ItemTags, groups, 1, 0, it.link.value);
    }
    if it.author.Some? {
      GroupTextContained("item", ItemTags, groups, 3, 0, it.author.value);
    }
    if it.comments.Some? {
      GroupTextContained("item", ItemTags, groups, 5, 0, it.comments.value);
    }
    if it.pubDate.Some? {
      GroupTextContained("item", ItemTags, groups, 6, 0, FormatDate(it.pubDate.value));
    }
  }

  /** Among the children of `<item>`: one title and one description, one
      link, author, comments or pubDate when it is set and none when it is
      not, and one `<category>` per category. */
  lemma ItemFieldCounts(it: Item)
    ensures CountTag(ItemNode(it).children, "title") == 1
    ensures CountTag(ItemNode(it).children, "description") == 1
    ensures CountTag(ItemNode(it).children, "link") == Presence(it.link)
    ensures CountTag(ItemNode(it).children, "author") == Presence(it.author)
    ensures CountTag(ItemNode(it).children, "comments") == Presence(it.comments)
    ensures CountTag(ItemNode(it).children, "pubDate") == Presence(it.pubDate)
    ensures CountTag(ItemNode(it).children, "category") == |it.categories|
  {
    var groups := ItemContents(it);
    FieldTagsDistinct();
    GroupCount(ItemTags, groups, 0, 1);
    GroupCount(ItemTags, groups, 1, Presence(it.link));
    GroupCount(ItemTags, groups, 2, 1);
    GroupCount(ItemTags, groups, 3, Presence(it.author));
    GroupCount(ItemTags, groups, 4, |it.categories|);
    GroupCount(ItemTags, groups, 5, Presence(it.comments));
    GroupCount(ItemTags, groups, 6, Presence(it.pubDate));
  }

  /** Every category of an item is written inside the item's element. */
  lemma ItemCategoryRendered(it: Item, i: nat)
    requires i < |it.categories|
    ensures Contains(Serialize(ItemNode(it)), Serialize(CategoryNode(it.categories[i])))
  {
    GroupChildContained("item", ItemTags, ItemContents(it), 4, i);
  }
}
