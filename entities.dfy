/** The RSS 2.0 entities and their constructors. A constructor takes every
    field as it was passed (`None` for an unset keyword) and either returns the
    entity or fails with `ElementRequiredError` naming the missing required
    fields. A constructed entity never changes afterwards. */
module Entities {
  import opened Optional
  import opened Rfc822
  import opened Validation

  /** `Category(category, domain=None)` */
  datatype Category = Category(name: string, domain: Option<string>)

  /** Cloud's port is checked for presence only; it may be text or a number. */
  datatype Port = PortText(text: string) | PortNumber(number: int)

  /** `Cloud(domain, port, path, registerProcedure, protocol)` */
  datatype Cloud = Cloud(domain: string, port: Port, path: string, registerProcedure: string, protocol: string)

  /** `Image(url, title, link, width=None, height=None, description=None)` */
  datatype Image = Image(url: string, title: string, link: string, width: Option<int>,
                         height: Option<int>, description: Option<string>)

  /** `TextInput(title, description, name, link)` */
  datatype TextInput = TextInput(title: string, description: string, name: string, link: string)

  /** `SkipHours(hours)`: kept in the caller's order, duplicates included. */
  datatype SkipHours = SkipHours(hours: seq<int>)

  /** `SkipDays(days)`: kept in the caller's order, duplicates included. */
  datatype SkipDays = SkipDays(days: seq<string>)

  /** One entry of a category list: a bare name or a Category. */
  datatype CategoryEntry = NameEntry(name: string) | RecordEntry(category: Category)

  /** The shapes the `categories` keyword accepts. */
  datatype Categories =
    | CategoryName(name: string)
    | SingleCategory(category: Category)
    | CategoryList(entries: seq<CategoryEntry>)

  datatype Item = Item(
    title: string,
    link: Option<string>,
    description: string,
    author: Option<string>,
    categories: seq<Category>,
    comments: Option<string>,
    pubDate: Option<Timestamp>)

  datatype Feed = Feed(
    title: string,
    link: string,
    description: string,
    language: Option<string>,
    copyright: Option<string>,
    managingEditor: Option<string>,
    webMaster: Option<string>,
    pubDate: Option<Timestamp>,
    lastBuildDate: Option<Timestamp>,
    categories: seq<Category>,
    generator: Option<string>,
    docs: Option<string>,
    cloud: Option<Cloud>,
    ttl: Option<int>,
    image: Option<Image>,
    rating: Option<string>,
    textInput: Option<TextInput>,
    skipHours: Option<SkipHours>,
    skipDays: Option<SkipDays>,
    items: seq<Item>)

  /** The arguments of an `Item(...)` call, `None` where a keyword is not given. */
  datatype ItemArgs = ItemArgs(
    title: Option<string>,
    link: Option<string>,
    description: Option<string>,
    author: Option<string>,
    categories: Option<Categories>,
    comments: Option<string>,
    pubDate: Option<Timestamp>)

  /** The arguments of a `Feed(...)` call, `None` where a keyword is not given. */
  datatype FeedArgs = FeedArgs(
    title: Option<string>,
    link: Option<string>,
    description: Option<string>,
    language: Option<string>,
    copyright: Option<string>,
    managingEditor: Option<string>,
    webMaster: Option<string>,
    pubDate: Option<Timestamp>,
    lastBuildDate: Option<Timestamp>,
    categories: Option<Categories>,
    generator: Option<string>,
    docs: Option<string>,
    cloud: Option<Cloud>,
    ttl: Option<int>,
    image: Option<Image>,
    rating: Option<string>,
    textInput: Option<TextInput>,
    skipHours: Option<SkipHours>,
    skipDays: Option<SkipDays>,
    items: seq<Item>)

  /** `Item()` with no argument: every keyword unset. */
  const NoItemArgs := ItemArgs(None, None, None, None, None, None, None)

  /** `Feed(title, link, description)`: every other keyword unset. */
  function FeedCall(title: Option<string>, link: Option<string>, description: Option<string>): (a: FeedArgs)
    ensures a.title == title && a.link == link && a.description == description
    ensures a.language.None? && a.copyright.None? && a.managingEditor.None? && a.webMaster.None?
    ensures a.pubDate.None? && a.lastBuildDate.None? && a.categories.None? && a.generator.None?
    ensures a.docs.None? && a.cloud.None? && a.ttl.None? && a.image.None? && a.rating.None?
    ensures a.textInput.None? && a.skipHours.None? && a.skipDays.None? && a.items == []
  {
    FeedArgs(title, link, description, None, None, None, None, None, None, None, None, None,
             None, None, None, None, None, None, None, [])
  }

  /** A bare name becomes a Category without a domain; a Category stays as it is. */
  function NormalizeEntry(e: CategoryEntry): (c: Category)
    ensures e.NameEntry? ==> c.name == e.name && c.domain.None?
    ensures e.RecordEntry? ==> c == e.category
  {
    match e
    case NameEntry(n) => Category(n, None)
    case RecordEntry(c) => c
  }

  /** The one canonical form of `categories`: a list of Category records,
      one per given entry, in the given order. */
  function NormalizeCategories(c: Option<Categories>): (r: seq<Category>)
    ensures c.None? ==> r == []
    ensures c.Some? && c.value.CategoryName? ==> r == [Category(c.value.name, None)]
    ensures c.Some? && c.value.SingleCategory? ==> r == [c.value.category]
    ensures c.Some? && c.value.CategoryList? ==>
      |r| == |c.value.entries| && forall i :: 0 <= i < |r| ==> r[i] == NormalizeEntry(c.value.entries[i])
  {
    match c
    case None => []
    case Some(CategoryName(n)) => [Category(n, None)]
    case Some(SingleCategory(cat)) => [cat]
    case Some(CategoryList(entries)) => seq(|entries|, i requires 0 <= i < |entries| => NormalizeEntry(entries[i]))
  }

  /** `Category(category, domain)`: `category` is required. */
  function NewCategory(category: Option<string>, domain: Option<string>): (r: Result<Category>)
    ensures r.Ok? <==> category.Some?
    ensures r.Ok? ==> r.value.name == category.value && r.value.domain == domain
    ensures r.Err? ==> r.missing == ["category"]
  {
    var missing := MissingIfUnset("category", category);
    if missing == [] then Ok(Category(category.value, domain)) else Err(missing)
  }

  /** The declared fields of each entity, in declaration order. */
  const CloudFields := ["domain", "port", "path", "registerProcedure", "protocol"]
  const ImageFields := ["url", "title", "link"]
  const TextInputFields := ["title", "description", "name", "link"]
  const ItemFields := ["title", "description"]
  const FeedFields := ["title", "link", "description"]

  /** No entity declares a field twice. */
  lemma DeclaredFieldsDistinct()
    ensures Distinct(CloudFields) && Distinct(ImageFields) && Distinct(TextInputFields)
    ensures Distinct(ItemFields) && Distinct(FeedFields)
  {
  }

  /** `Cloud(...)`: all five attributes are required. */
  function NewCloud(domain: Option<string>, port: Option<Port>, path: Option<string>,
                    registerProcedure: Option<string>, protocol: Option<string>): (r: Result<Cloud>)
    ensures r.Ok? <==> domain.Some? && port.Some? && path.Some? && registerProcedure.Some? && protocol.Some?
    ensures r.Ok? ==> r.value == Cloud(domain.value, port.value, path.value, registerProcedure.value, protocol.value)
    ensures r.Err? ==> forall n :: n in r.missing <==>
      || (n == "domain" && domain.None?) || (n == "port" && port.None?) || (n == "path" && path.None?)
      || (n == "registerProcedure" && registerProcedure.None?) || (n == "protocol" && protocol.None?)
    ensures r.Err? ==> InDeclarationOrder(r.missing, CloudFields)
  {
    var missing := MissingOf5("domain", domain, "port", port, "path", path,
                              "registerProcedure", registerProcedure, "protocol", protocol);
    DeclaredFieldsDistinct();
    SubsequenceDistinct(missing, CloudFields);
    if missing == [] then Ok(Cloud(domain.value, port.value, path.value, registerProcedure.value, protocol.value))
    else Err(missing)
  }

  /** `Image(...)`: url, title and link are required. */
  function NewImage(url: Option<string>, title: Option<string>, link: Option<string>,
                    width: Option<int>, height: Option<int>, description: Option<string>): (r: Result<Image>)
    ensures r.Ok? <==> url.Some? && title.Some? && link.Some?
    ensures r.Ok? ==> r.value == Image(url.value, title.value, link.value, width, height, description)
    ensures r.Err? ==> forall n :: n in r.missing <==>
      (n == "url" && url.None?) || (n == "title" && title.None?) || (n == "link" && link.None?)
    ensures r.Err? ==> InDeclarationOrder(r.missing, ImageFields)
  {
    var missing := MissingOf3("url", url, "title", title, "link", link);
    DeclaredFieldsDistinct();
    SubsequenceDistinct(missing, ImageFields);
    if missing == [] then Ok(Image(url.value, title.value, link.value, width, height, description))
    else Err(missing)
  }

  /** `TextInput(...)`: all four fields are required. */
  function NewTextInput(title: Option<string>, description: Option<string>, name: Option<string>,
                        link: Option<string>): (r: Result<TextInput>)
    ensures r.Ok? <==> title.Some? && description.Some? && name.Some? && link.Some?
    ensures r.Ok? ==> r.value == TextInput(title.value, description.value, name.value, link.value)
    ensures r.Err? ==> forall n :: n in r.missing <==>
      || (n == "title" && title.None?) || (n == "description" && description.None?)
      || (n == "name" && name.None?) || (n == "link" && link.None?)
    ensures r.Err? ==> InDeclarationOrder(r.missing, TextInputFields)
  {
    var missing := MissingOf4("title", title, "description", description, "name", name, "link", link);
    DeclaredFieldsDistinct();
    SubsequenceDistinct(missing, TextInputFields);
    if missing == [] then Ok(TextInput(title.value, description.value, name.value, link.value))
    else Err(missing)
  }

  /** `SkipHours(hours)`: the list is required (an empty list is a value). */
  function NewSkipHours(hours: Option<seq<int>>): (r: Result<SkipHours>)
    ensures r.Ok? <==> hours.Some?
    ensures r.Ok? ==> r.value.hours == hours.value
    ensures r.Err? ==> r.missing == ["hours"]
  {
    var missing := MissingIfUnset("hours", hours);
    if missing == [] then Ok(SkipHours(hours.value)) else Err(missing)
  }

  /** `SkipDays(days)`: the list is required (an empty list is a value). */
  function NewSkipDays(days: Option<seq<string>>): (r: Result<SkipDays>)
    ensures r.Ok? <==> days.Some?
    ensures r.Ok? ==> r.value.days == days.value
    ensures r.Err? ==> r.missing == ["days"]
  {
    var missing := MissingIfUnset("days", days);
    if missing == [] then Ok(SkipDays(days.value)) else Err(missing)
  }

  /** `Item(...)`: title and description are required; categories are normalized. */
  function NewItem(a: ItemArgs): (r: Result<Item>)
    ensures r.Ok? <==> a.title.Some? && a.description.Some?
    ensures r.Ok? ==> r.value == Item(a.title.value, a.link, a.description.value, a.author,
                                      NormalizeCategories(a.categories), a.comments, a.pubDate)
    ensures r.Err? ==> forall n :: n in r.missing <==>
      (n == "title" && a.title.None?) || (n == "description" && a.description.None?)
    ensures r.Err? ==> InDeclarationOrder(r.missing, ItemFields)
  {
    var missing := MissingOf2("title", a.title, "description", a.description);
    DeclaredFieldsDistinct();
    SubsequenceDistinct(missing, ItemFields);
    if missing == [] then
      Ok(Item(a.title.value, a.link, a.description.value, a.author, NormalizeCategories(a.categories),
              a.comments, a.pubDate))
    else Err(missing)
  }

  /** `Feed(...)`: title, link and description are required; categories are
      normalized; every other keyword is carried over as given. */
  function NewFeed(a: FeedArgs): (r: Result<Feed>)
    ensures r.Ok? <==> a.title.Some? && a.link.Some? && a.description.Some?
    ensures r.Ok? ==> r.value == Feed(a.title.value, a.link.value, a.description.value, a.language,
                                      a.copyright, a.managingEditor, a.webMaster, a.pubDate,
                                      a.lastBuildDate, NormalizeCategories(a.categories), a.generator,
                                      a.docs, a.cloud, a.ttl, a.image, a.rating, a.textInput,
                                      a.skipHours, a.skipDays, a.items)
    ensures r.Err? ==> forall n :: n in r.missing <==>
      || (n == "title" && a.title.None?) || (n == "link" && a.link.None?)
      || (n == "description" && a.description.None?)
    ensures r.Err? ==> InDeclarationOrder(r.missing, FeedFields)
  {
    var missing := MissingOf3("title", a.title, "link", a.link, "description", a.description);
    DeclaredFieldsDistinct();
    SubsequenceDistinct(missing, FeedFields);
    if missing == [] then
      Ok(Feed(a.title.value, a.link.value, a.description.value, a.language, a.copyright,
              a.managingEditor, a.webMaster, a.pubDate, a.lastBuildDate,
              NormalizeCategories(a.categories), a.generator, a.docs, a.cloud, a.ttl, a.image,
              a.rating, a.textInput, a.skipHours, a.skipDays, a.items))
    else Err(missing)
  }
}
