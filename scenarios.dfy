/** The concrete calls of the library's own test suite, stated over the
    model: which constructor calls fail and what their error message names,
    what the numbers in the rendering tests are written as, and how every
    accepted shape of `categories` ends up in the document. */
module Scenarios {
  import opened Optional
  import opened Text
  import opened Validation
  import opened Xml
  import opened Entities
  import opened Render
  import opened ElementProperties
  import opened RssProperties

  /** `Feed` with one of title, link, description unset fails naming exactly
      that field; an empty string is accepted. */
  lemma FeedValidationExamples()
    ensures NewFeed(FeedCall(None, Some(""), Some(""))) == Err(["title"])
    ensures NewFeed(FeedCall(Some(""), None, Some(""))) == Err(["link"])
    ensures NewFeed(FeedCall(Some(""), Some(""), None)) == Err(["description"])
    ensures NewFeed(FeedCall(Some(""), Some(""), Some(""))).Ok?
    ensures Contains(ErrorMessage(["title"]), "title")
    ensures Contains(ErrorMessage(["link"]), "link")
    ensures Contains(ErrorMessage(["description"]), "description")
  {
    ErrorMessageNamesEveryField(["title"], "title");
    ErrorMessageNamesEveryField(["link"], "link");
    ErrorMessageNamesEveryField(["description"], "description");
  }

  /** `Image` with one of url, title, link unset fails naming that field. */
  lemma ImageValidationExamples()
    ensures NewImage(None, Some(""), Some(""), None, None, None) == Err(["url"])
    ensures NewImage(Some(""), None, Some(""), None, None, None) == Err(["title"])
    ensures NewImage(Some(""), Some(""), None, None, None, None) == Err(["link"])
    ensures Contains(ErrorMessage(["url"]), "url")
  {
    ErrorMessageNamesEveryField(["url"], "url");
  }

  /** `TextInput` with one of its four fields unset fails naming that field. */
  lemma TextInputValidationExamples()
    ensures NewTextInput(None, Some(""), Some(""), Some("")) == Err(["title"])
    ensures NewTextInput(Some(""), None, Some(""), Some("")) == Err(["description"])
    ensures NewTextInput(Some(""), Some(""), None, Some("")) == Err(["name"])
    ensures NewTextInput(Some(""), Some(""), Some(""), None) == Err(["link"])
    ensures Contains(ErrorMessage(["name"]), "name")
  {
    ErrorMessageNamesEveryField(["name"], "name");
  }

  /** `SkipHours(None)`, `SkipDays(None)` and `Category(None)` fail naming
      `hours`, `days` and `category`. */
  lemma SingleFieldValidationExamples()
    ensures NewSkipHours(None) == Err(["hours"]) && Contains(ErrorMessage(["hours"]), "hours")
    ensures NewSkipDays(None) == Err(["days"]) && Contains(ErrorMessage(["days"]), "days")
    ensures NewCategory(None, None) == Err(["category"]) && Contains(ErrorMessage(["category"]), "category")
  {
    ErrorMessageNamesEveryField(["hours"], "hours");
    ErrorMessageNamesEveryField(["days"], "days");
    ErrorMessageNamesEveryField(["category"], "category");
  }

  /** `Item()` fails naming both title and description, in that order. */
  lemma ItemValidationExample()
    ensures NewItem(NoItemArgs) == Err(["title", "description"])
    ensures Contains(ErrorMessage(["title", "description"]), "title")
    ensures Contains(ErrorMessage(["title", "description"]), "description")
  {
    ErrorMessageNamesEveryField(["title", "description"], "title");
    ErrorMessageNamesEveryField(["title", "description"], "description");
  }

  /** `Cloud` with one of its five attributes unset fails naming that
      attribute; an empty port is a port. */
  lemma CloudValidationExamples()
    ensures NewCloud(None, Some(PortText("")), Some(""), Some(""), Some("")) == Err(["domain"])
    ensures NewCloud(Some(""), None, Some(""), Some(""), Some("")) == Err(["port"])
    ensures NewCloud(Some(""), Some(PortText("")), None, Some(""), Some("")) == Err(["path"])
    ensures NewCloud(Some(""), Some(PortText("")), Some(""), None, Some("")) == Err(["registerProcedure"])
    ensures NewCloud(Some(""), Some(PortText("")), Some(""), Some(""), None) == Err(["protocol"])
    ensures Contains(ErrorMessage(["registerProcedure"]), "registerProcedure")
  {
    ErrorMessageNamesEveryField(["registerProcedure"], "registerProcedure");
  }

  /** The numbers of the rendering tests in decimal: ttl 123, cloud port 2,
      image width 4 and height 5, and the hours 0, 2, 4, 6, 8 and 10. */
  lemma DecimalExamples()
    ensures IntToString(123) == "123"
    ensures PortValue(PortNumber(2)) == "2"
    ensures IntToString(4) == "4" && IntToString(5) == "5"
    ensures IntToString(0) == "0" && IntToString(10) == "10"
    ensures IntToString(2) == "2" && IntToString(6) == "6" && IntToString(8) == "8"
  {
    assert NatToDecimal(12) == "12" by {
      assert NatToDecimal(1) == "1";
    }
    assert NatToDecimal(10) == "10" by {
      assert NatToDecimal(1) == "1";
    }
  }

  /** A category given by its bare name, alone or in a list, is written as
      `<category>name</category>`; a Category record is written as itself. */
  lemma CategoryShapesRendered(c: Option<Categories>, i: nat)
    requires i < |NormalizeCategories(c)|
    ensures c.Some? && c.value.CategoryName? ==>
      Serialize(CategoryNode(NormalizeCategories(c)[i])) == ElementText("category", c.value.name)
    ensures c.Some? && c.value.CategoryList? && c.value.entries[i].NameEntry? ==>
      Serialize(CategoryNode(NormalizeCategories(c)[i])) == ElementText("category", c.value.entries[i].name)
    ensures c.Some? && c.value.SingleCategory? ==> CategoryNode(NormalizeCategories(c)[i]) == CategoryNode(c.value.category)
  {
  }

  /** Every category passed to `Feed`, in any of its shapes, is written in
      the document `rss()` returns. */
  lemma FeedCategoryArgumentRendered(a: FeedArgs, i: nat)
    requires NewFeed(a).Ok? && i < |NormalizeCategories(a.categories)|
    ensures Contains(Rss(NewFeed(a).value), Serialize(CategoryNode(NormalizeCategories(a.categories)[i])))
  {
    var f := NewFeed(a).value;
    assert f.categories == NormalizeCategories(a.categories);
    CategoryInRss(f, i);
  }

  /** `rss()` of a feed with a cloud holds `<cloud `, each attribute as
      `name="value"`, and `</cloud>`. */
  lemma CloudInDocument(f: Feed, c: Cloud)
    requires f.cloud == Some(c)
    ensures Contains(Rss(f), "<cloud ") && Contains(Rss(f), "</cloud>")
    ensures Contains(Rss(f), "domain" + "=\"" + c.domain + "\"")
    ensures Contains(Rss(f), "port" + "=\"" + PortValue(c.port) + "\"")
    ensures Contains(Rss(f), "path" + "=\"" + c.path + "\"")
    ensures Contains(Rss(f), "registerProcedure" + "=\"" + c.registerProcedure + "\"")
    ensures Contains(Rss(f), "protocol" + "=\"" + c.protocol + "\"")
  {
    var r, n := Rss(f), Serialize(CloudNode(c));
    CloudInRss(f);
    CloudRendered(c);
    ContainsTransitive(r, n, "<cloud ");
    ContainsTransitive(r, n, "</cloud>");
    ContainsTransitive(r, n, "domain" + "=\"" + c.domain + "\"");
    ContainsTransitive(r, n, "port" + "=\"" + PortValue(c.port) + "\"");
    ContainsTransitive(r, n, "path" + "=\"" + c.path + "\"");
    ContainsTransitive(r, n, "registerProcedure" + "=\"" + c.registerProcedure + "\"");
    ContainsTransitive(r, n, "protocol" + "=\"" + c.protocol + "\"");
  }

  /** `rss()` of a feed with an image holds `<image>`, its url, title and
      link, its width, height and description when set, and `</image>`. */
  lemma ImageInDocument(f: Feed, im: Image)
    requires f.image == Some(im)
    ensures Contains(Rss(f), "<image>") && Contains(Rss(f), "</image>")
    ensures Contains(Rss(f), ElementText("url", im.url))
    ensures Contains(Rss(f), ElementText("title", im.title))
    ensures Contains(Rss(f), ElementText("link", im.link))
    ensures im.width.Some? ==> Contains(Rss(f), ElementText("width", IntToString(im.width.value)))
    ensures im.height.Some? ==> Contains(Rss(f), ElementText("height", IntToString(im.height.value)))
    ensures im.description.Some? ==> Contains(Rss(f), ElementText("description", im.description.value))
  {
    var r, n := Rss(f), Serialize(ImageNode(im));
    ImageInRss(f);
    ImageRendered(im);
    ImageOptionalRendered(im);
    ContainsTransitive(r, n, "<image>");
    ContainsTransitive(r, n, "</image>");
    ContainsTransitive(r, n, ElementText("url", im.url));
    ContainsTransitive(r, n, ElementText("title", im.title));
    ContainsTransitive(r, n, ElementText("link", im.link));
    if im.width.Some? {
      ContainsTransitive(r, n, ElementText("width", IntToString(im.width.value)));
    }
    if im.height.Some? {
      ContainsTransitive(r, n, ElementText("height", IntToString(im.height.value)));
    }
    if im.description.Some? {
      ContainsTransitive(r, n, ElementText("description", im.description.value));
    }
  }

  /** `rss()` of a feed with a text input holds `<textInput>`, its four
      fields and `</textInput>`. */
  lemma TextInputInDocument(f: Feed, t: TextInput)
    requires f.textInput == Some(t)
    ensures Contains(Rss(f), "<textInput>") && Contains(Rss(f), "</textInput>")
    ensures Contains(Rss(f), ElementText("title", t.title))
    ensures Contains(Rss(f), ElementText("description", t.description))
    ensures Contains(Rss(f), ElementText("name", t.name))
    ensures Contains(Rss(f), ElementText("link", t.link))
  {
    var r, n := Rss(f), Serialize(TextInputNode(t));
    TextInputInRss(f);
    TextInputRendered(t);
    ContainsTransitive(r, n, "<textInput>");
    ContainsTransitive(r, n, "</textInput>");
    ContainsTransitive(r, n, ElementText("title", t.title));
    ContainsTransitive(r, n, ElementText("description", t.description));
    ContainsTransitive(r, n, ElementText("name", t.name));
    ContainsTransitive(r, n, ElementText("link", t.link));
  }

  /** `rss()` of a feed with skip hours holds `<skipHours>`, an `<hour>` for
      every entry, and `</skipHours>`. */
  lemma SkipHoursInDocument(f: Feed, h: SkipHours)
    requires f.skipHours == Some(h)
    ensures Contains(Rss(f), "<skipHours>") && Contains(Rss(f), "</skipHours>")
    ensures forall i :: 0 <= i < |h.hours| ==> Contains(Rss(f), ElementText("hour", IntToString(h.hours[i])))
  {
    var r, n := Rss(f), Serialize(SkipHoursNode(h));
    SkipHoursInRss(f);
    SkipHoursRendered(h);
    ContainsTransitive(r, n, "<skipHours>");
    ContainsTransitive(r, n, "</skipHours>");
    forall i | 0 <= i < |h.hours|
      ensures Contains(r, ElementText("hour", IntToString(h.hours[i])))
    {
      ContainsTransitive(r, n, ElementText("hour", IntToString(h.hours[i])));
    }
  }

  /** `rss()` of a feed with skip days holds `<skipDays>`, a `<day>` for every
      entry, and `</skipDays>`. */
  lemma SkipDaysInDocument(f: Feed, d: SkipDays)
    requires f.skipDays == Some(d)
    ensures Contains(Rss(f), "<skipDays>") && Contains(Rss(f), "</skipDays>")
    ensures forall i :: 0 <= i < |d.days| ==> Contains(Rss(f), ElementText("day", d.days[i]))
  {
    var r, n := Rss(f), Serialize(SkipDaysNode(d));
    SkipDaysInRss(f);
    SkipDaysRendered(d);
    ContainsTransitive(r, n, "<skipDays>");
    ContainsTransitive(r, n, "</skipDays>");
    forall i | 0 <= i < |d.days|
      ensures Contains(r, ElementText("day", d.days[i]))
    {
      ContainsTransitive(r, n, ElementText("day", d.days[i]));
    }
  }

  /** `rss()` holds `<category`, `domain="d"` and `>name</category>` for a
      category with a domain, and `<category>name</category>` for one
      without. */
  lemma CategoryInDocument(f: Feed, i: nat)
    requires i < |f.categories|
    ensures f.categories[i].domain.None? ==> Contains(Rss(f), ElementText("category", f.categories[i].name))
    ensures f.categories[i].domain.Some? ==>
      && Contains(Rss(f), "<category")
      && Contains(Rss(f), "domain" + "=\"" + f.categories[i].domain.value + "\"")
      && Contains(Rss(f), ">" + f.categories[i].name + "</category>")
  {
    var c := f.categories[i];
    var r, n := Rss(f), Serialize(CategoryNode(c));
    CategoryInRss(f, i);
    if c.domain.Some? {
      CategoryRendered(c);
      ContainsTransitive(r, n, "<category");
      ContainsTransitive(r, n, "domain" + "=\"" + c.domain.value + "\"");
      ContainsTransitive(r, n, ">" + c.name + "</category>");
    }
  }
}
