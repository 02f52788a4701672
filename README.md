# rfeed: a verified model of the RSS 2.0 feed builder

rfeed builds RSS 2.0 documents from Python objects: a `Feed` with its
channel fields, `Item`s, and the sub-entities `Image`, `TextInput`, `Cloud`,
`Category`, `SkipHours` and `SkipDays`. `Feed.rss()` returns the document
as text. This project models the behaviour the library's test suite
(`tests.py`) pins down, and proves it. The model has three parts.

- **RFC 822 dates** (`Rfc822`). `Serializable.date` writes a date-time in
  the form of section 5 of RFC 822 that RSS 2.0 uses:
  `"Www, DD Mon YYYY HH:MM:SS GMT"`, with a four-digit year and English
  names. An absent date stays absent. The weekday comes from Python's
  proleptic Gregorian calendar, in which 0001-01-01 is day 1 and a Monday.
  A parser for exactly that layout is proved to invert the formatter in
  both directions. The weekday is checked against an independent
  definition that counts days year by year and month by month.
- **Required-field validation** (`Validation`, `Entities`). Every entity
  constructor takes its arguments as options (`None` for a keyword that is
  not given), except the list of a feed's items, where `[]` stands for a
  keyword that is not given. It returns either the entity or `ElementRequiredError` with
  the names of all the missing required fields, in declaration order. An
  empty string is a value, not a missing field. The error's text quotes
  every missing name. The four accepted shapes of `categories` (a name, a
  `Category`, or a list of either) are normalised to one list of
  `Category` records.
- **Rendering** (`Xml`, `Render`, `ElementProperties`, `RssProperties`,
  `Scenarios`).
  - Elements are a small XML tree with a serializer.
  - A set field becomes `<tag>value</tag>` with the value verbatim, which
    is the shape of the test suite's `_element` helper.
  - An unset optional field writes nothing.
  - `generator` and `docs` fall back to fixed defaults.
  - `image`, `textInput`, `skipHours` and `skipDays` wrap their children.
  - `cloud` carries its five fields as attributes.
  - Every category becomes one `<category>` element, with a `domain`
    attribute when it has a domain.
  - The properties are stated the way the tests state them: as substrings
    of the text `rss()` returns. Each channel field also gets a count of
    its elements among the channel's children: one for a set or defaulted
    field, none for an unset one, and one per entry of a list.

RSS 2.0's own example writes `cloud` as a self-closing element. tests.py:65
requires `</cloud>` in the output, so the model follows the test and
writes `<cloud …></cloud>`.

The two tests at tests.py:48-55 carry each other's names: the one named
for `generator` checks `docs`, and the one named for `docs` checks
`generator`. The model states both defaults.

## Model

| member | source | states |
|---|---|---|
| Rfc822.FirstDateExample | tests.py:10 | 2014-11-13 08:00:00 is written `Thu, 13 Nov 2014 08:00:00 GMT` |
| Rfc822.SecondDateExample | tests.py:11 | 2014-12-01 10:22:15 is written `Mon, 01 Dec 2014 10:22:15 GMT`, zero-padded day |
| Rfc822.Date | tests.py:13-14 | an absent date gives an absent result; a present one gives a 29-character text |
| Rfc822.DateReadsBack | tests.py:9-11 | the text `date` writes parses back to the date-time it was given |
| Rfc822.FormatDate | tests.py:9-11 | the formatted date-time is always 29 characters long |
| Rfc822.FormatLayout | tests.py:9-11 | weekday at 0-2, `, ` at 3-4, the date at 5-15, a space, the time at 17-24, then ` GMT` |
| Rfc822.FormattedDateFields | tests.py:9-11 | the date is a two-digit day, the month abbreviation and a four-digit year, separated by spaces |
| Rfc822.FormattedTimeFields | tests.py:9-11 | the time is two-digit hour, minute and second separated by `:` |
| Rfc822.FormatParseRoundTrip | tests.py:9-11 | parsing the formatted text gives the date-time back |
| Rfc822.ParseFormatRoundTrip | tests.py:9-11 | every text the parser accepts is the formatting of what it parses to |
| Rfc822.FormatDateInjective | tests.py:9-11 | two different date-times never get the same text |
| Rfc822.MonthNameRoundTrip | tests.py:9-11 | each month's abbreviation is read back as that month |
| Rfc822.MonthNumber | tests.py:9-11 | an abbreviation that is read as a month is that month's abbreviation |
| Rfc822.DaysInMonth | tests.py:9-11 | every month has 28 to 31 days, and 29 exactly in February of a leap year |
| Rfc822.Weekday | tests.py:9-11 | the weekday number lies in 0..6 |
| Rfc822.WeekdayCountsFromFirstMonday | tests.py:9-11 | the weekday is the number of days since 0001-01-01, summed year by year and month by month, modulo 7 from Monday |
| Rfc822.FirstDayIsMonday | tests.py:9-11 | 0001-01-01 is ordinal day 1 and a Monday |
| Rfc822.NextDayNextWeekday | tests.py:9-11 | the next calendar day has the next ordinal and the next weekday |
| Rfc822.DaysBeforeYearIsTotal | tests.py:9-11 | the closed-form count of days before a year equals the year-by-year sum |
| Rfc822.DaysBeforeMonthIsTotal | tests.py:9-11 | the month table equals the month-by-month sum of month lengths |
| Text.PaddedRoundTrip | tests.py:9-11 | a zero-padded number reads back as that number |
| Text.PaddedOfValue | tests.py:9-11 | every digit string is the padded form of its value |
| Text.IntToStringRoundTrip | tests.py:45 | the decimal text of an integer is integer text that reads back as the integer |
| Text.NatToDecimalRoundTrip | tests.py:45 | the decimal text of a natural number reads back as that number |
| Text.IntToString | tests.py:45 | an integer's text starts with `-` exactly when it is negative, and the rest is the decimal digits of its magnitude |
| Text.Padded | tests.py:9-11 | a number below 10^w is written as exactly w decimal digits (`%02d`, `%04d`); its value is pinned by `PaddedRoundTrip` |
| Validation.MissingIfUnset | tests.py:23-34 | a field is listed as missing exactly when it is `None`; `''` is not missing |
| Validation.QuotedListNamesAll | tests.py:23-34 | the quoted list contains every listed name, quoted |
| Validation.ErrorMessage | tests.py:23-34 | no contract of its own: what `str(ElementRequiredError)` promises, that it names every missing field, is `ErrorMessageNamesEveryField` |
| Validation.ErrorMessageNamesEveryField | tests.py:23-34 | the error's text contains the name of every missing field |
| Validation.MissingOf2 | tests.py:172-176 | two fields' missing names: empty exactly when both are set, each unset field listed, in declaration order |
| Validation.MissingOf3 | tests.py:23-34 | three fields' missing names: empty exactly when all are set, each unset field listed, in declaration order |
| Validation.MissingOf4 | tests.py:145-160 | four fields' missing names: empty exactly when all are set, each unset field listed, in declaration order |
| Validation.MissingOf5 | tests.py:178-197 | five fields' missing names: empty exactly when all are set, each unset field listed, in declaration order |
| Validation.MissingInOrder | tests.py:172-176 | a first field's missing name, followed by the missing names of the later fields in order, is in declaration order |
| Validation.SubsequenceDistinct | tests.py:172-176 | names taken in order from a list of distinct field names are themselves distinct |
| Entities.NewFeed | tests.py:18-34 | `Feed` succeeds exactly when title, link and description are given; it keeps every argument and normalises categories; otherwise the error lists exactly the missing ones, each once, in declaration order |
| Entities.NewImage | tests.py:132-143 | `Image` succeeds exactly when url, title and link are given; otherwise the error lists exactly the missing ones, each once, in declaration order |
| Entities.NewTextInput | tests.py:145-160 | `TextInput` succeeds exactly when its four fields are given; otherwise the error lists exactly the missing ones, each once, in declaration order |
| Entities.NewSkipHours | tests.py:162-165 | `SkipHours` needs `hours` and keeps the list as given; otherwise the error is `["hours"]` |
| Entities.NewSkipDays | tests.py:167-170 | `SkipDays` needs `days` and keeps the list as given; otherwise the error is `["days"]` |
| Entities.NewItem | tests.py:172-176 | `Item` succeeds exactly when title and description are given; otherwise the error lists exactly the missing ones, each once, in declaration order |
| Entities.NewCloud | tests.py:178-197 | `Cloud` succeeds exactly when all five fields are given; otherwise the error lists exactly the missing ones, each once, in declaration order |
| Entities.NewCategory | tests.py:199-202 | `Category` needs its name and keeps its domain; otherwise the error is `["category"]` |
| Entities.FeedCall | tests.py:19 | `Feed(title, link, description)` leaves every other keyword unset |
| Entities.NormalizeEntry | tests.py:120-130 | a bare name becomes a Category without a domain; a Category stays as it is |
| Entities.NormalizeCategories | tests.py:110-130 | no categories give `[]`; a name or a Category gives one record; a list gives one record per entry, in order |
| Xml.TextElement | tests.py:204-205 | an element holding one text value serializes to `<tag>value</tag>` |
| Xml.ElementTextPrefix | tests.py:55 | `<tag>` followed by the start of the value begins the element's text |
| Xml.StartTagContained | tests.py:59 | an element's text holds `<tag>`, or `<tag ` when it has attributes |
| Xml.AttributeContained | tests.py:60-64 | an element's text holds each attribute as `name="value"` |
| Xml.EndTagContained | tests.py:65 | an element's text holds `</tag>` |
| Xml.ContentContained | tests.py:114 | an element's text holds `>`, its content and `</tag>` |
| Xml.ChildContained | tests.py:67-76 | a container's text holds each child's text |
| Xml.GroupChildContained | tests.py:67-76 | a container built from field groups holds each field's element |
| Xml.CountTagFlatten | tests.py:36-46 | with distinct tags, the number of `tag` elements is the size of that tag's group |
| Xml.GroupCount | tests.py:67-76 | an element built from groups with distinct tags has as many `tags[k]` children as group k has contents |
| Render.TextField | tests.py:36-46 | an optional text field writes one element when set and none when unset |
| Render.CategoryNode | tests.py:110-130 | a category without a domain is `<category>name</category>`; with one it carries `domain` as its one attribute |
| Render.CategoryWithDomain | tests.py:110-114 | a category with a domain is `<category domain="d">name</category>` |
| Render.CategoryContents | tests.py:120-130 | one category element per category, in the given order |
| Render.CloudNode | tests.py:57-65 | `cloud` has no content and five attributes: domain, port, path, registerProcedure, protocol, values verbatim |
| Render.SkipHoursNode | tests.py:87-96 | one `<hour>` per entry, in the given order, duplicates kept |
| Render.SkipDaysNode | tests.py:98-108 | one `<day>` per entry, in the given order, duplicates kept |
| Render.ImageNode | tests.py:67-76 | an `<image>` element without attributes; its children are stated by `ImageFieldCounts`, `ImageRendered` and `ImageOptionalRendered` |
| Render.TextInputNode | tests.py:78-85 | a `<textInput>` element without attributes; its children are stated by `TextInputFieldCounts` and `TextInputRendered` |
| Render.ItemNode | tests.py:172-176 | an `<item>` element without attributes; its children are stated by `ItemFieldCounts`, `ItemRendered`, `ItemOptionalRendered` and `ItemCategoryRendered` |
| Render.Rss | tests.py:19-130 | no contract of its own: what `rss()` promises is stated by the `RssProperties` lemmas (counts among the channel's children, and every field and sub-entity in the text) |
| ElementProperties.CloudRendered | tests.py:57-65 | the cloud's text holds `<cloud `, each attribute as `name="value"`, and `</cloud>` |
| ElementProperties.ImageRendered | tests.py:67-72 | the image's text holds `<image>`, url, title, link and `</image>` |
| ElementProperties.ImageOptionalRendered | tests.py:73-75 | width and height in decimal, and the description, appear when set |
| ElementProperties.ImageFieldCounts | tests.py:67-76 | among `<image>`'s children: one url, title and link each; one width, height or description when set and none when unset |
| ElementProperties.TextInputRendered | tests.py:78-85 | the text input's text holds `<textInput>`, its four fields and `</textInput>` |
| ElementProperties.TextInputFieldCounts | tests.py:78-85 | among `<textInput>`'s children: exactly one title, description, name and link |
| ElementProperties.SkipHoursRendered | tests.py:87-96 | the text holds `<skipHours>`, an `<hour>` per entry and `</skipHours>` |
| ElementProperties.SkipDaysRendered | tests.py:98-108 | the text holds `<skipDays>`, a `<day>` per entry and `</skipDays>` |
| ElementProperties.CategoryRendered | tests.py:110-114 | a category with a domain holds `<category`, `domain="d"` and `>name</category>` |
| ElementProperties.ItemRendered | tests.py:172-176 | an item's text holds `<item>`, its title and description, and `</item>` |
| ElementProperties.ItemOptionalRendered | tests.py:172-176 | an item's link, author, comments and RFC 822 pubDate appear when set |
| ElementProperties.ItemFieldCounts | tests.py:172-176 | among `<item>`'s children: one title and one description; one link, author, comments or pubDate when set and none when unset; one `<category>` per category |
| ElementProperties.ItemCategoryRendered | tests.py:172-176 | each of an item's categories appears inside the item |
| RssProperties.ChannelTagsDistinct | tests.py:36-46 | no tag names two channel fields |
| RssProperties.ChannelCount | tests.py:36-46 | the count of a channel field's tag is the number of elements that field writes |
| RssProperties.ChannelElementInRss | tests.py:36-46 | every element a channel field writes is in `rss()` |
| RssProperties.SingleTextField | tests.py:18-21 | a field that always writes one value is exactly one child of the channel, and `rss()` holds it as `<tag>value</tag>` |
| RssProperties.OptionalTextField | tests.py:36-46 | an optional field is one child of the channel when set, held in `rss()` as `<tag>value</tag>`, and none when unset |
| RssProperties.TitleRendered | tests.py:19 | the channel has exactly one `<title>` child, and `rss()` holds it with the title verbatim |
| RssProperties.LinkRendered | tests.py:20 | the channel has exactly one `<link>` child, and `rss()` holds it with the link verbatim |
| RssProperties.DescriptionRendered | tests.py:21 | the channel has exactly one `<description>` child, and `rss()` holds it with the description verbatim |
| RssProperties.LanguageRendered | tests.py:37 | the channel has one `<language>` child when set, held verbatim in `rss()`, and none when unset |
| RssProperties.CopyrightRendered | tests.py:38 | the channel has one `<copyright>` child when set, held verbatim in `rss()`, and none when unset |
| RssProperties.ManagingEditorRendered | tests.py:39 | the channel has one `<managingEditor>` child when set, held verbatim in `rss()`, and none when unset |
| RssProperties.WebMasterRendered | tests.py:40 | the channel has one `<webMaster>` child when set, held verbatim in `rss()`, and none when unset |
| RssProperties.PubDateRendered | tests.py:41 | the channel has one `<pubDate>` child when set, held in `rss()` with the RFC 822 text, and none when unset |
| RssProperties.LastBuildDateRendered | tests.py:42 | the channel has one `<lastBuildDate>` child when set, held in `rss()` with the RFC 822 text, and none when unset |
| RssProperties.GeneratorRendered | tests.py:43 | the channel has exactly one `<generator>` child: the given value, or the default, which starts `<generator>rfeed v` |
| RssProperties.DefaultGeneratorPrefix | tests.py:55 | the default generator element starts with `<generator>rfeed v` |
| RssProperties.DocsRendered | tests.py:52 | the channel has exactly one `<docs>` child: the given value, or the rfeed README URL |
| RssProperties.TtlRendered | tests.py:45 | the channel has one `<ttl>` child when set, held in `rss()` in decimal, and none when unset |
| RssProperties.RatingRendered | tests.py:46 | the channel has one `<rating>` child when set, held verbatim in `rss()`, and none when unset |
| RssProperties.CategoryCount | tests.py:120-130 | the channel has one `<category>` child per category of the feed |
| RssProperties.CategoryInRss | tests.py:110-130 | every category of the feed is in `rss()` |
| RssProperties.CloudInRss | tests.py:57-65 | the channel has one `<cloud>` child when set, and `rss()` holds its text; none when unset |
| RssProperties.ImageInRss | tests.py:67-76 | the channel has one `<image>` child when set, and `rss()` holds its text; none when unset |
| RssProperties.TextInputInRss | tests.py:78-85 | the channel has one `<textInput>` child when set, and `rss()` holds its text; none when unset |
| RssProperties.SkipHoursInRss | tests.py:87-96 | the channel has one `<skipHours>` child when set, and `rss()` holds its text; none when unset |
| RssProperties.SkipDaysInRss | tests.py:98-108 | the channel has one `<skipDays>` child when set, and `rss()` holds its text; none when unset |
| RssProperties.ItemCount | tests.py:172-176 | the channel has one `<item>` child per item of the feed |
| RssProperties.ItemInRss | tests.py:172-176 | every item of the feed is in `rss()` |
| Scenarios.FeedValidationExamples | tests.py:23-34 | `Feed` with title, link or description `None` fails naming exactly that field, and the message contains it; all `''` succeeds |
| Scenarios.ImageValidationExamples | tests.py:132-143 | `Image` with url, title or link `None` fails naming exactly that field |
| Scenarios.TextInputValidationExamples | tests.py:145-160 | `TextInput` with any one field `None` fails naming exactly that field |
| Scenarios.SingleFieldValidationExamples | tests.py:162-170 | `SkipHours(None)`, `SkipDays(None)` and `Category(None)` fail naming `hours`, `days` and `category` |
| Scenarios.ItemValidationExample | tests.py:172-176 | `Item()` fails with `["title", "description"]`, and the message names both |
| Scenarios.CloudValidationExamples | tests.py:178-197 | `Cloud` with any one field `None` fails naming exactly that field |
| Scenarios.DecimalExamples | tests.py:45-96 | 123, port 2, width 4, height 5, and hours 0, 2, 4, 6, 8 and 10 are written as those digits |
| Scenarios.CategoryShapesRendered | tests.py:116-130 | a bare name, alone or in a list, is written `<category>name</category>`; a Category record as itself |
| Scenarios.FeedCategoryArgumentRendered | tests.py:110-130 | every category given to `Feed`, in any shape, is in `rss()` |
| Scenarios.CloudInDocument | tests.py:57-65 | `rss()` holds `<cloud `, the five `name="value"` attributes and `</cloud>` |
| Scenarios.ImageInDocument | tests.py:67-76 | `rss()` holds `<image>`, url, title, link and `</image>`, and width, height and description when they are set |
| Scenarios.TextInputInDocument | tests.py:78-85 | `rss()` holds `<textInput>`, title, description, name, link and `</textInput>` |
| Scenarios.SkipHoursInDocument | tests.py:87-96 | `rss()` holds `<skipHours>`, an `<hour>` for each entry and `</skipHours>` |
| Scenarios.SkipDaysInDocument | tests.py:98-108 | `rss()` holds `<skipDays>`, a `<day>` for each entry and `</skipDays>` |
| Scenarios.CategoryInDocument | tests.py:110-118 | `rss()` holds `<category>name</category>`, or `<category`, `domain="d"` and `>name</category>` |

## Left out

- The rfeed implementation module is not part of this model. The behaviour is taken from the assertions of tests.py and from the library's documented design.
- Entities.NewItem: requires both title and description, following the library's documented note that its validation, as implemented, requires both. RSS 2.0 itself accepts an item with only one of them, and tests.py:172-176 only checks the call with both missing, so an item with just one of the two is rejected here by that choice, not by a test.
- Element counts (`TitleRendered`, `CategoryCount` and the others in `RssProperties`) count only the channel's own children. The same tags also occur inside `<image>`, `<textInput>` and `<item>`, so the document as a whole can hold more than one `<title>`.
- The XML declaration, the `<rss version="2.0"><channel>` envelope and the order of the channel's elements: `Rss` writes one concrete choice (the order of `ChannelTags`). No lemma about the text of `rss()` states them, because no test fixes them; `ChannelOrder` states the order of the channel's children only as a step towards the element counts. Every property is a substring or a count, which holds whatever the order.
- XML escaping of `&`, `<` and `>`: values are written verbatim, as the library does.
- The exact library version inside the default generator (`Version`): only its `rfeed v` prefix is stated.
- Locale, time zones, `gmtime` and `strftime`: the date-time is taken as already in GMT, and the names are a fixed English table.
- Python `datetime` beyond year, month, day, hour, minute and second: no microseconds, no time-zone info, no floating-point time.
- The Item fields `enclosure`, `guid` and `source`: no test constructs them, and their entities are not defined. RSS extensions and namespaces are outside the library's scope.
- The `unittest` scaffolding of tests.py and its `__main__` runner.
