/** `parsePageProperties` of scripts/notion-client.js: the raw Notion page record, with each
    optional-chained property already reduced to what the chain reaches, and the flat
    property record the sync works with. */
module NotionProperties {
  import opened Wrappers
  import opened JsString

  /** A page as queried from the database. `titleTexts`, `slugTexts` and `categoryTexts`
      are the `plain_text` fields of the property's rich-text runs (empty when the property
      or its array is missing, and "" for a run without text); `tagNames` the names of the
      multi-select options (empty when absent). */
  datatype RawPage = RawPage(
    id: string,
    url: string,
    titleTexts: seq<string>,
    slugTexts: seq<string>,
    categoryTexts: seq<string>,
    tagNames: seq<string>,
    statusName: Option<string>,
    createdTime: Option<string>,
    dateStart: Option<string>,
    lastEditedTime: Option<string>)

  /** `indexDate`: the page's date property, or the moment of parsing when it has none. */
  datatype IndexDate = Start(start: string) | Today(now: int)

  datatype PageProperties = PageProperties(
    id: string,
    title: string,
    slug: string,
    category: seq<string>,
    tags: seq<string>,
    status: string,
    createdTime: Option<string>,
    indexDate: IndexDate,
    lastEditedTime: Option<string>,
    url: string)

  /** `texts?.[0]?.plain_text || fallback`: the first run's text when it is truthy. */
  function FirstTextOr(texts: seq<string>, fallback: string): string {
    if |texts| > 0 && texts[0] != "" then texts[0] else fallback
  }

  /** `value || fallback` for an optional string. */
  function StringOr(value: Option<string>, fallback: string): string {
    if value.Some? && value.value != "" then value.value else fallback
  }

  /** The text of the category property, "" when it is missing. */
  function CategoryText(page: RawPage): string {
    FirstTextOr(page.categoryTexts, "")
  }

  /** The key words of a page, with the documented defaults; `now` is the clock reading the
      source takes with `new Date()`. */
  function ParsePageProperties(page: RawPage, now: int): (p: PageProperties)
    ensures p.id == page.id && p.url == page.url
    ensures p.tags == page.tagNames
    ensures p.createdTime == page.createdTime && p.lastEditedTime == page.lastEditedTime
  {
    PageProperties(
      page.id,
      FirstTextOr(page.titleTexts, "Untitled"),
      FirstTextOr(page.slugTexts, ""),
      Split(CategoryText(page), '/'),
      page.tagNames,
      StringOr(page.statusName, "draft"),
      page.createdTime,
      match page.dateStart
        case Some(d) => if d != "" then Start(d) else Today(now)
        case None => Today(now),
      page.lastEditedTime,
      page.url)
  }

  /** The defaults: a missing or empty title, slug or status gives "Untitled", "" and
      "draft"; a present one is taken as it is. So the title and the status are never empty. */
  lemma ParseDefaults(page: RawPage, now: int)
    ensures var p := ParsePageProperties(page, now);
      && p.title != "" && p.status != ""
      && (p.title == "Untitled" <== (|page.titleTexts| == 0 || page.titleTexts[0] == ""))
      && (|page.titleTexts| > 0 && page.titleTexts[0] != "" ==> p.title == page.titleTexts[0])
      && (|page.slugTexts| > 0 ==> p.slug == page.slugTexts[0])
      && (|page.slugTexts| == 0 ==> p.slug == "")
      && (p.status == "draft" <== (page.statusName.None? || page.statusName.value == ""))
      && (page.statusName.Some? && page.statusName.value != "" ==> p.status == page.statusName.value)
      && (p.indexDate.Today? <==> (page.dateStart.None? || page.dateStart.value == ""))
  {
  }

  /** The category path is never an empty sequence (a page without a category gets `[""]`),
      none of its segments contains "/", and joining it with "/" gives back the property text. */
  lemma {:induction false} CategoryPath(page: RawPage, now: int)
    ensures var p := ParsePageProperties(page, now);
      && |p.category| >= 1
      && (forall k :: 0 <= k < |p.category| ==> '/' !in p.category[k])
      && Join(p.category, "/") == CategoryText(page)
      && (CategoryText(page) == "" ==> p.category == [""])
  {
    JoinSplit(CategoryText(page), '/');
    if CategoryText(page) == "" {
      SplitNoSep("", '/');
    }
  }
}
