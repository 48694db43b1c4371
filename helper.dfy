/** The sidebar and navigation builders of scripts/helper.js. A JavaScript object used as a
    dictionary is an insertion-ordered list with one entry per key; a `Set` is a list
    without repeats, kept in first-insertion order. */
module Helper {
  import opened Wrappers

  /** The record processPage returns for one page. */
  datatype Article = Article(
    title: string,
    slug: string,
    category: seq<string>,
    date: Option<string>,
    tags: seq<string>,
    filePath: string)

  /** A sidebar entry: a page link, or a category grouping further entries. */
  datatype SidebarItem =
    | Leaf(text: string, link: string)
    | Group(text: string, items: seq<SidebarItem>)

  /** isDuplicate: some entry has this text and this link (a group has no link). */
  predicate IsDuplicate(items: seq<SidebarItem>, text: string, link: string) {
    |items| > 0 && ((items[0].Leaf? && items[0].text == text && items[0].link == link) || IsDuplicate(items[1..], text, link))
  }

  lemma {:induction false} IsDuplicateIff(items: seq<SidebarItem>, text: string, link: string)
    ensures IsDuplicate(items, text, link) <==> Leaf(text, link) in items
  {
    if |items| > 0 {
      IsDuplicateIff(items[1..], text, link);
      assert items == [items[0]] + items[1..];
    }
  }

  /** `items.find(item => item.text === cat && !item.link)`: a group of that name or, since
      the empty string is falsy, a page of that name with an empty link. */
  predicate MatchesCategory(item: SidebarItem, cat: string) {
    item.text == cat && (item.Group? || item.link == "")
  }

  function FindCategory(items: seq<SidebarItem>, cat: string): (r: Option<nat>)
    ensures r.Some? ==> r.value < |items| && MatchesCategory(items[r.value], cat)
    ensures r.Some? ==> forall k :: 0 <= k < r.value ==> !MatchesCategory(items[k], cat)
    ensures r.None? ==> forall k :: 0 <= k < |items| ==> !MatchesCategory(items[k], cat)
  {
    if |items| == 0 then None
    else if MatchesCategory(items[0], cat) then Some(0)
    else
      var r := FindCategory(items[1..], cat);
      if r.Some? then Some(r.value + 1) else None
  }

  /** Adds the page `text`/`link` under the category path `path` of the list `items`: each
      level reuses the first matching group or appends a new one, and the page is appended
      at the end unless it is already there. None when the walk reaches a page with an
      empty link, whose missing `items` makes the next step throw. */
  function Insert(items: seq<SidebarItem>, path: seq<string>, text: string, link: string): Option<seq<SidebarItem>>
    decreases |path|
  {
    if |path| == 0 then
      Some(if IsDuplicate(items, text, link) then items else items + [Leaf(text, link)])
    else
      var f := FindCategory(items, path[0]);
      if f.None? then
        match Insert([], path[1..], text, link)
        case None => None
        case Some(inner) => Some(items + [Group(path[0], inner)])
      else if items[f.value].Leaf? then None
      else
        match Insert(items[f.value].items, path[1..], text, link)
        case None => None
        case Some(inner) => Some(items[f.value := Group(path[0], inner)])
  }

  // ---------------------------------------------------------------- the cursor

  /** A cursor: the indices of the groups walked through from the top list. */
  predicate ValidPath(items: seq<SidebarItem>, path: seq<nat>)
    decreases |path|
  {
    |path| == 0 || (path[0] < |items| && items[path[0]].Group? && ValidPath(items[path[0]].items, path[1..]))
  }

  /** The list the cursor points at. */
  function ItemsAt(items: seq<SidebarItem>, path: seq<nat>): seq<SidebarItem>
    requires ValidPath(items, path)
    decreases |path|
  {
    if |path| == 0 then items else ItemsAt(items[path[0]].items, path[1..])
  }

  /** The tree with the list the cursor points at replaced: what a `push` through the
      cursor does to the tree it aliases. */
  function Graft(items: seq<SidebarItem>, path: seq<nat>, list: seq<SidebarItem>): seq<SidebarItem>
    requires ValidPath(items, path)
    decreases |path|
  {
    if |path| == 0 then list
    else items[path[0] := Group(items[path[0]].text, Graft(items[path[0]].items, path[1..], list))]
  }

  lemma {:induction false} GraftThenRead(items: seq<SidebarItem>, path: seq<nat>, list: seq<SidebarItem>)
    requires ValidPath(items, path)
    ensures ValidPath(Graft(items, path, list), path)
    ensures ItemsAt(Graft(items, path, list), path) == list
    ensures forall other :: Graft(Graft(items, path, list), path, other) == Graft(items, path, other)
    decreases |path|
  {
    if |path| > 0 {
      GraftThenRead(items[path[0]].items, path[1..], list);
    }
  }

  /** Stepping the cursor into group k of the current list. */
  lemma {:induction false} GraftExtend(items: seq<SidebarItem>, path: seq<nat>, k: nat, list: seq<SidebarItem>)
    requires ValidPath(items, path)
    requires k < |ItemsAt(items, path)| && ItemsAt(items, path)[k].Group?
    ensures ValidPath(items, path + [k])
    ensures ItemsAt(items, path + [k]) == ItemsAt(items, path)[k].items
    ensures Graft(items, path + [k], list)
      == Graft(items, path, ItemsAt(items, path)[k := Group(ItemsAt(items, path)[k].text, list)])
    decreases |path|
  {
    if |path| == 0 {
      assert path + [k] == [k];
    } else {
      assert (path + [k])[1..] == path[1..] + [k];
      GraftExtend(items[path[0]].items, path[1..], k, list);
    }
  }

  /** The insertion of the rest of the path at the cursor, seen from the whole tree. */
  function InsertAt(items: seq<SidebarItem>, path: seq<nat>, rest: seq<string>, text: string, link: string): Option<seq<SidebarItem>>
    requires ValidPath(items, path)
  {
    match Insert(ItemsAt(items, path), rest, text, link)
    case None => None
    case Some(list) => Some(Graft(items, path, list))
  }

  /** One level of the walk when the category exists: the cursor enters it. */
  lemma WalkInto(items: seq<SidebarItem>, path: seq<nat>, rest: seq<string>, text: string, link: string)
    requires ValidPath(items, path) && |rest| > 0
    requires FindCategory(ItemsAt(items, path), rest[0]).Some?
    requires ItemsAt(items, path)[FindCategory(ItemsAt(items, path), rest[0]).value].Group?
    ensures ValidPath(items, path + [FindCategory(ItemsAt(items, path), rest[0]).value])
    ensures InsertAt(items, path, rest, text, link)
      == InsertAt(items, path + [FindCategory(ItemsAt(items, path), rest[0]).value], rest[1..], text, link)
  {
    var list := ItemsAt(items, path);
    var k := FindCategory(list, rest[0]).value;
    GraftExtend(items, path, k, []);
    match Insert(list[k].items, rest[1..], text, link)
    case None =>
    case Some(inner) =>
      GraftExtend(items, path, k, inner);
  }

  /** One level of the walk when the category is missing: an empty group is appended
      and the cursor enters it. */
  lemma WalkNew(items: seq<SidebarItem>, path: seq<nat>, rest: seq<string>, text: string, link: string)
    requires ValidPath(items, path) && |rest| > 0
    requires FindCategory(ItemsAt(items, path), rest[0]).None?
    ensures var grown := Graft(items, path, ItemsAt(items, path) + [Group(rest[0], [])]);
      && ValidPath(grown, path + [|ItemsAt(items, path)|])
      && InsertAt(items, path, rest, text, link) == InsertAt(grown, path + [|ItemsAt(items, path)|], rest[1..], text, link)
  {
    var list := ItemsAt(items, path);
    var grownList := list + [Group(rest[0], [])];
    var grown := Graft(items, path, grownList);
    GraftThenRead(items, path, grownList);
    GraftExtend(grown, path, |list|, []);
    match Insert([], rest[1..], text, link)
    case None =>
    case Some(inner) =>
      GraftExtend(grown, path, |list|, inner);
      assert grownList[|list| := Group(rest[0], inner)] == list + [Group(rest[0], inner)];
  }

  // ---------------------------------------------------------------- organizeData

  /** A top-level category: `{text, collapsed: false, items}`. */
  datatype TopCategory = TopCategory(text: string, collapsed: bool, items: seq<SidebarItem>)

  /** One key of the sidebar object: `/<top>/` mapped to a one-element list. */
  datatype SidebarEntry = SidebarEntry(key: string, groups: seq<TopCategory>)

  /** The first index of `names` holding `x`: how the scripts look up an object key. */
  function FirstIndex(names: seq<string>, x: string): (r: Option<nat>)
    ensures r.Some? ==> r.value < |names| && names[r.value] == x
    ensures r.Some? ==> forall k :: 0 <= k < r.value ==> names[k] != x
    ensures r.None? ==> forall k :: 0 <= k < |names| ==> names[k] != x
  {
    if |names| == 0 then None
    else if names[0] == x then Some(0)
    else
      var r := FirstIndex(names[1..], x);
      if r.Some? then Some(r.value + 1) else None
  }

  /** `topCategories[text]`: the top category of that name. */
  function FindTop(tops: seq<TopCategory>, text: string): (r: Option<nat>)
    ensures r.Some? ==> r.value < |tops| && tops[r.value].text == text
    ensures r.None? ==> forall k :: 0 <= k < |tops| ==> tops[k].text != text
  {
    FirstIndex(Texts(tops), text)
  }

  /** The state after one article of `data.forEach`. */
  function AddArticle(tops: seq<TopCategory>, a: Article): Option<seq<TopCategory>> {
    if |a.category| == 0 then Some(tops)
    else
      var f := FindTop(tops, a.category[0]);
      var grown := if f.None? then tops + [TopCategory(a.category[0], false, [])] else tops;
      var k := if f.None? then |tops| else f.value;
      match Insert(grown[k].items, a.category[1..], a.title, a.slug)
      case None => None
      case Some(items) => Some(grown[k := grown[k].(items := items)])
  }

  /** The top categories after the whole of `data`, in first-seen order. */
  function Collect(data: seq<Article>): Option<seq<TopCategory>> {
    if |data| == 0 then Some([])
    else
      match Collect(data[..|data| - 1])
      case None => None
      case Some(tops) => AddArticle(tops, data[|data| - 1])
  }

  /** Once an article throws, the whole of organizeData throws. */
  lemma {:induction false} CollectFails(data: seq<Article>, m: nat)
    requires m <= |data| && Collect(data[..m]).None?
    ensures Collect(data).None?
    decreases |data| - m
  {
    if m < |data| {
      assert data[..m + 1][..m] == data[..m];
      CollectFails(data, m + 1);
    } else {
      assert data[..m] == data;
    }
  }

  function SidebarOf(tops: seq<TopCategory>): (r: seq<SidebarEntry>)
    ensures |r| == |tops|
    ensures forall i :: 0 <= i < |tops| ==> r[i] == SidebarEntry("/" + tops[i].text + "/", [tops[i]])
  {
    if |tops| == 0 then [] else [SidebarEntry("/" + tops[0].text + "/", [tops[0]])] + SidebarOf(tops[1..])
  }

  function OrganizeDataSpec(data: seq<Article>): Option<seq<SidebarEntry>> {
    match Collect(data)
    case None => None
    case Some(tops) => Some(SidebarOf(tops))
  }

  /** organizeData. None when the walk throws (a page with an empty link is taken for a
      category). */
  method OrganizeData(data: seq<Article>) returns (r: Option<seq<SidebarEntry>>)
    ensures r == OrganizeDataSpec(data)
  {
    var topCategories: seq<TopCategory> := [];
    for n := 0 to |data|
      invariant Collect(data[..n]) == Some(topCategories)
    {
      assert data[..n + 1][..n] == data[..n];
      var item := data[n];
      if |item.category| == 0 {
        continue;
      }
      var topCat := item.category[0];
      var f := FindTop(topCategories, topCat);
      if f.None? {
        topCategories := topCategories + [TopCategory(topCat, false, [])];
      }
      var k := if f.None? then |topCategories| - 1 else f.value;
      var items := AddToTop(topCategories[k].items, item.category, item.title, item.slug);
      if items.None? {
        CollectFails(data, n + 1);
        return None;
      }
      topCategories := topCategories[k := topCategories[k].(items := items.value)];
    }
    assert data[..|data|] == data;
    r := Some(SidebarOf(topCategories));
  }

  /** The walk down `category[1..]` with the `currentItems` cursor, then the leaf. */
  method AddToTop(top: seq<SidebarItem>, category: seq<string>, title: string, slug: string)
    returns (r: Option<seq<SidebarItem>>)
    requires |category| >= 1
    ensures r == Insert(top, category[1..], title, slug)
  {
    var items := top;
    var cursor: seq<nat> := [];
    assert InsertAt(items, cursor, category[1..], title, slug) == Insert(top, category[1..], title, slug);
    for i := 1 to |category|
      invariant ValidPath(items, cursor)
      invariant InsertAt(items, cursor, category[i..], title, slug) == Insert(top, category[1..], title, slug)
    {
      var cat := category[i];
      var currentItems := ItemsAt(items, cursor);
      var existing := FindCategory(currentItems, cat);
      assert category[i..][0] == cat && category[i..][1..] == category[i + 1..];
      if existing.None? {
        WalkNew(items, cursor, category[i..], title, slug);
        items := Graft(items, cursor, currentItems + [Group(cat, [])]);
        cursor := cursor + [|currentItems|];
      } else if currentItems[existing.value].Leaf? {
        return None;
      } else {
        WalkInto(items, cursor, category[i..], title, slug);
        cursor := cursor + [existing.value];
      }
    }
    var currentItems := ItemsAt(items, cursor);
    assert category[|category|..] == [];
    if !IsDuplicate(currentItems, title, slug) {
      r := Some(Graft(items, cursor, currentItems + [Leaf(title, slug)]));
    } else {
      r := Some(Graft(items, cursor, currentItems));
    }
  }

  // ---------------------------------------------------------------- properties of organizeData

  /** An article without categories leaves the sidebar as it was. */
  lemma SkipsUncategorised(data: seq<Article>, a: Article)
    requires |a.category| == 0
    ensures Collect(data + [a]) == Collect(data)
  {
    assert (data + [a])[..|data|] == data;
  }

  function AddDistinct(s: seq<string>, x: string): seq<string> {
    if x in s then s else s + [x]
  }

  /** The distinct elements of s, in first-seen order. */
  function Distinct(s: seq<string>): seq<string> {
    if |s| == 0 then [] else AddDistinct(Distinct(s[..|s| - 1]), s[|s| - 1])
  }

  /** Distinct never repeats an element, and keeps exactly the elements of s. */
  lemma {:induction false} DistinctUnique(s: seq<string>)
    ensures forall i, j :: 0 <= i < j < |Distinct(s)| ==> Distinct(s)[i] != Distinct(s)[j]
    ensures forall x :: x in Distinct(s) <==> x in s
  {
    if |s| > 0 {
      var init := s[..|s| - 1];
      DistinctUnique(init);
      assert s == init + [s[|s| - 1]];
    }
  }

  /** `category[0]` of every article that has one, in order. */
  function TopsOf(data: seq<Article>): seq<string> {
    if |data| == 0 then []
    else TopsOf(data[..|data| - 1]) + (if |data[|data| - 1].category| > 0 then [data[|data| - 1].category[0]] else [])
  }

  function Texts(tops: seq<TopCategory>): (r: seq<string>)
    ensures |r| == |tops| && forall i :: 0 <= i < |tops| ==> r[i] == tops[i].text
  {
    seq(|tops|, i requires 0 <= i < |tops| => tops[i].text)
  }

  lemma AddArticleTexts(tops: seq<TopCategory>, a: Article)
    requires AddArticle(tops, a).Some?
    ensures |a.category| > 0 ==> Texts(AddArticle(tops, a).value) == AddDistinct(Texts(tops), a.category[0])
    ensures |a.category| == 0 ==> AddArticle(tops, a).value == tops
    ensures forall k :: 0 <= k < |AddArticle(tops, a).value| ==> AddArticle(tops, a).value[k].collapsed == (k < |tops| && tops[k].collapsed)
  {
    if |a.category| > 0 {
      var f := FindTop(tops, a.category[0]);
      if f.Some? {
        assert a.category[0] in Texts(tops);
      } else {
        assert a.category[0] !in Texts(tops);
      }
    }
  }

  /** organizeData has exactly one top category per distinct `category[0]`, in first-seen
      order, each with `collapsed: false`. */
  lemma {:induction false} CollectTops(data: seq<Article>)
    requires Collect(data).Some?
    ensures Texts(Collect(data).value) == Distinct(TopsOf(data))
    ensures forall k :: 0 <= k < |Collect(data).value| ==> !Collect(data).value[k].collapsed
  {
    if |data| > 0 {
      var init := data[..|data| - 1];
      var a := data[|data| - 1];
      CollectTops(init);
      AddArticleTexts(Collect(init).value, a);
      if |a.category| > 0 {
        assert TopsOf(data) == TopsOf(init) + [a.category[0]];
        assert (TopsOf(init) + [a.category[0]])[..|TopsOf(init)|] == TopsOf(init);
      } else {
        assert TopsOf(data) == TopsOf(init);
      }
    }
  }

  /** The sidebar's keys are `/<top>/` for the distinct tops, each with a one-element list. */
  lemma SidebarKeys(data: seq<Article>)
    requires OrganizeDataSpec(data).Some?
    ensures var r := OrganizeDataSpec(data).value;
      && |r| == |Distinct(TopsOf(data))|
      && forall i :: 0 <= i < |r| ==>
           && r[i].key == "/" + Distinct(TopsOf(data))[i] + "/"
           && |r[i].groups| == 1 && r[i].groups[0].text == Distinct(TopsOf(data))[i]
           && !r[i].groups[0].collapsed
  {
    CollectTops(data);
  }

  /** The page `text`/`link` sits in the list reached through groups named `path`. */
  predicate HasLeafAt(items: seq<SidebarItem>, path: seq<string>, text: string, link: string)
    decreases |path|
  {
    if |path| == 0 then Leaf(text, link) in items
    else exists k ::
      && 0 <= k < |items| && items[k].Group? && items[k].text == path[0]
      && HasLeafAt(items[k].items, path[1..], text, link)
  }

  /** Insert puts the page at the end of its category path. */
  lemma {:induction false} InsertPlaces(items: seq<SidebarItem>, path: seq<string>, text: string, link: string)
    requires Insert(items, path, text, link).Some?
    ensures HasLeafAt(Insert(items, path, text, link).value, path, text, link)
    decreases |path|
  {
    var r := Insert(items, path, text, link).value;
    if |path| == 0 {
      IsDuplicateIff(items, text, link);
    } else {
      var f := FindCategory(items, path[0]);
      if f.None? {
        InsertPlaces([], path[1..], text, link);
        assert r[|items|].Group? && r[|items|].text == path[0];
      } else {
        InsertPlaces(items[f.value].items, path[1..], text, link);
        assert r[f.value].Group? && r[f.value].text == path[0];
      }
    }
  }

  /** Insert loses no page already placed. */
  lemma {:induction false} InsertKeeps(items: seq<SidebarItem>, path: seq<string>, text: string, link: string,
                                       other: seq<string>, t: string, l: string)
    requires Insert(items, other, t, l).Some?
    requires HasLeafAt(items, path, text, link)
    ensures HasLeafAt(Insert(items, other, t, l).value, path, text, link)
    decreases |path|
  {
    var r := Insert(items, other, t, l).value;
    Siblings(items, other, t, l);
    if |path| == 0 {
      var k :| 0 <= k < |items| && items[k] == Leaf(text, link);
      assert r[k] == items[k];
    } else {
      var k :| 0 <= k < |items| && items[k].Group? && items[k].text == path[0]
        && HasLeafAt(items[k].items, path[1..], text, link);
      if r[k] != items[k] {
        var f := FindCategory(items, other[0]);
        assert |other| > 0 && f == Some(k);
        InsertKeeps(items[k].items, path[1..], text, link, other[1..], t, l);
      }
      assert r[k].Group? && r[k].text == path[0] && HasLeafAt(r[k].items, path[1..], text, link);
    }
  }

  /** Insert only appends one entry or updates a group in place: earlier siblings keep
      their places, pages are never changed, groups keep their names. */
  lemma Siblings(items: seq<SidebarItem>, path: seq<string>, text: string, link: string)
    requires Insert(items, path, text, link).Some?
    ensures var r := Insert(items, path, text, link).value;
      && |items| <= |r| <= |items| + 1
      && forall k :: 0 <= k < |items| ==>
           r[k] == items[k] || (items[k].Group? && r[k].Group? && r[k].text == items[k].text)
  {
  }

  /** No list of the tree holds the same page twice. */
  predicate NoDuplicateLeaves(items: seq<SidebarItem>)
    decreases items
  {
    && (forall i, j :: 0 <= i < j < |items| && items[i].Leaf? ==> items[i] != items[j])
    && (forall k :: 0 <= k < |items| && items[k].Group? ==> NoDuplicateLeaves(items[k].items))
  }

  lemma {:induction false} InsertNoDuplicates(items: seq<SidebarItem>, path: seq<string>, text: string, link: string)
    requires NoDuplicateLeaves(items)
    requires Insert(items, path, text, link).Some?
    ensures NoDuplicateLeaves(Insert(items, path, text, link).value)
    decreases |path|
  {
    var r := Insert(items, path, text, link).value;
    if |path| == 0 {
      IsDuplicateIff(items, text, link);
    } else {
      var f := FindCategory(items, path[0]);
      if f.None? {
        InsertNoDuplicates([], path[1..], text, link);
        assert r == items + [r[|items|]];
      } else {
        InsertNoDuplicates(items[f.value].items, path[1..], text, link);
      }
    }
  }

  /** Every page of the tree has a non-empty link. */
  predicate LinksNonEmpty(items: seq<SidebarItem>)
    decreases items
  {
    forall k :: 0 <= k < |items| ==>
      && (items[k].Leaf? ==> items[k].link != "")
      && (items[k].Group? ==> LinksNonEmpty(items[k].items))
  }

  /** With non-empty links the walk never meets a page, so Insert never throws. */
  lemma {:induction false} InsertTotal(items: seq<SidebarItem>, path: seq<string>, text: string, link: string)
    requires LinksNonEmpty(items) && link != ""
    ensures Insert(items, path, text, link).Some?
    ensures LinksNonEmpty(Insert(items, path, text, link).value)
    decreases |path|
  {
    if |path| > 0 {
      var f := FindCategory(items, path[0]);
      if f.None? {
        InsertTotal([], path[1..], text, link);
      } else {
        InsertTotal(items[f.value].items, path[1..], text, link);
      }
    }
  }

  /** The invariant of the top categories while articles are added. */
  predicate WellFormed(tops: seq<TopCategory>) {
    forall k :: 0 <= k < |tops| ==> NoDuplicateLeaves(tops[k].items) && LinksNonEmpty(tops[k].items)
  }

  /** The article is in the sidebar: under its top category, at its category path. */
  predicate Placed(tops: seq<TopCategory>, a: Article) {
    || |a.category| == 0
    || exists k ::
         && 0 <= k < |tops| && tops[k].text == a.category[0]
         && HasLeafAt(tops[k].items, a.category[1..], a.title, a.slug)
  }

  lemma AddArticleSteps(tops: seq<TopCategory>, a: Article, before: seq<Article>)
    requires WellFormed(tops) && a.slug != ""
    requires forall i :: 0 <= i < |before| ==> Placed(tops, before[i])
    ensures AddArticle(tops, a).Some?
    ensures WellFormed(AddArticle(tops, a).value)
    ensures Placed(AddArticle(tops, a).value, a)
    ensures forall i :: 0 <= i < |before| ==> Placed(AddArticle(tops, a).value, before[i])
  {
    if |a.category| > 0 {
      var f := FindTop(tops, a.category[0]);
      var grown := if f.None? then tops + [TopCategory(a.category[0], false, [])] else tops;
      var k := if f.None? then |tops| else f.value;
      InsertTotal(grown[k].items, a.category[1..], a.title, a.slug);
      InsertNoDuplicates(grown[k].items, a.category[1..], a.title, a.slug);
      InsertPlaces(grown[k].items, a.category[1..], a.title, a.slug);
      var r := AddArticle(tops, a).value;
      assert r[k].text == a.category[0] && HasLeafAt(r[k].items, a.category[1..], a.title, a.slug);
      forall i | 0 <= i < |before| ensures Placed(r, before[i]) {
        var b := before[i];
        if |b.category| > 0 {
          var j :| 0 <= j < |tops| && tops[j].text == b.category[0]
            && HasLeafAt(tops[j].items, b.category[1..], b.title, b.slug);
          if j == k {
            InsertKeeps(grown[k].items, b.category[1..], b.title, b.slug, a.category[1..], a.title, a.slug);
          }
          assert r[j].text == b.category[0] && HasLeafAt(r[j].items, b.category[1..], b.title, b.slug);
        }
      }
    }
  }

  /** When every article has a non-empty slug (processPage builds `/<path>/<title>.md`),
      organizeData does not throw, places every categorised article at its category path
      under its top category, and never lists a page twice in one list. */
  lemma {:induction false} CollectPlacesAll(data: seq<Article>)
    requires forall i :: 0 <= i < |data| ==> data[i].slug != ""
    ensures Collect(data).Some?
    ensures WellFormed(Collect(data).value)
    ensures forall i :: 0 <= i < |data| ==> Placed(Collect(data).value, data[i])
  {
    if |data| > 0 {
      var init := data[..|data| - 1];
      CollectPlacesAll(init);
      AddArticleSteps(Collect(init).value, data[|data| - 1], init);
      forall i | 0 <= i < |data| ensures Placed(Collect(data).value, data[i]) {
        if i < |init| {
          assert data[i] == init[i];
        }
      }
    }
  }

  // ---------------------------------------------------------------- organizeNav

  /** One key of categoryMap: a first-level category and its Set of second-level ones. */
  datatype NavCategory = NavCategory(level1: string, level2: seq<string>)

  /** `{text: l2, link: "/<l1>/", activeMatch: "/<l1>/"}` */
  datatype NavLink = NavLink(text: string, link: string, activeMatch: string)

  datatype NavGroup = NavGroup(text: string, items: seq<NavLink>)

  /** `categoryMap[level1]`. */
  function FindNav(m: seq<NavCategory>, level1: string): (r: Option<nat>)
    ensures r.Some? ==> r.value < |m| && m[r.value].level1 == level1
    ensures r.None? ==> forall k :: 0 <= k < |m| ==> m[k].level1 != level1
  {
    FirstIndex(Level1Texts(m), level1)
  }

  function AddNav(m: seq<NavCategory>, a: Article): seq<NavCategory> {
    if |a.category| < 2 then m
    else
      var f := FindNav(m, a.category[0]);
      if f.None? then m + [NavCategory(a.category[0], [a.category[1]])]
      else m[f.value := NavCategory(a.category[0], AddDistinct(m[f.value].level2, a.category[1]))]
  }

  /** categoryMap after the whole of `data`. */
  function NavMap(data: seq<Article>): seq<NavCategory> {
    if |data| == 0 then [] else AddNav(NavMap(data[..|data| - 1]), data[|data| - 1])
  }

  function NavLinks(level1: string, level2: seq<string>): (r: seq<NavLink>)
    ensures |r| == |level2|
    ensures forall i :: 0 <= i < |r| ==> r[i] == NavLink(level2[i], "/" + level1 + "/", "/" + level1 + "/")
  {
    seq(|level2|, i requires 0 <= i < |level2| => NavLink(level2[i], "/" + level1 + "/", "/" + level1 + "/"))
  }

  function NavOf(m: seq<NavCategory>): (r: seq<NavGroup>)
    ensures |r| == |m|
    ensures forall i :: 0 <= i < |m| ==> r[i] == NavGroup(m[i].level1, NavLinks(m[i].level1, m[i].level2))
  {
    seq(|m|, i requires 0 <= i < |m| => NavGroup(m[i].level1, NavLinks(m[i].level1, m[i].level2)))
  }

  /** organizeNav */
  method OrganizeNav(data: seq<Article>) returns (r: seq<NavGroup>)
    ensures r == NavOf(NavMap(data))
  {
    var categoryMap: seq<NavCategory> := [];
    for n := 0 to |data|
      invariant categoryMap == NavMap(data[..n])
    {
      assert data[..n + 1][..n] == data[..n];
      var category := data[n].category;
      if |category| < 2 {
        continue;
      }
      var level1 := category[0];
      var level2 := category[1];
      ghost var before := categoryMap;
      var f := FindNav(categoryMap, level1);
      var k := if f.None? then |categoryMap| else f.value;
      if f.None? {
        categoryMap := categoryMap + [NavCategory(level1, [])];
      }
      var set2 := categoryMap[k].level2;
      if level2 !in set2 {
        set2 := set2 + [level2];
      }
      assert set2 == AddDistinct(categoryMap[k].level2, level2);
      categoryMap := categoryMap[k := NavCategory(level1, set2)];
      if f.None? {
        assert set2 == [level2];
        assert categoryMap == before + [NavCategory(level1, [level2])];
      }
      assert categoryMap == AddNav(before, data[n]);
    }
    assert data[..|data|] == data;
    r := [];
    for i := 0 to |categoryMap|
      invariant r == NavOf(categoryMap[..i])
    {
      r := r + [NavGroup(categoryMap[i].level1, NavLinks(categoryMap[i].level1, categoryMap[i].level2))];
    }
    assert categoryMap[..|categoryMap|] == categoryMap;
  }

  /** `category[0]` of every article with at least two categories, in order. */
  function Level1s(data: seq<Article>): seq<string> {
    if |data| == 0 then []
    else Level1s(data[..|data| - 1]) + (if |data[|data| - 1].category| >= 2 then [data[|data| - 1].category[0]] else [])
  }

  /** `category[1]` of every such article whose `category[0]` is `level1`, in order. */
  function Level2s(data: seq<Article>, level1: string): seq<string> {
    if |data| == 0 then []
    else
      var a := data[|data| - 1];
      Level2s(data[..|data| - 1], level1) + (if |a.category| >= 2 && a.category[0] == level1 then [a.category[1]] else [])
  }

  function Level1Texts(m: seq<NavCategory>): (r: seq<string>)
    ensures |r| == |m| && forall i :: 0 <= i < |m| ==> r[i] == m[i].level1
  {
    seq(|m|, i requires 0 <= i < |m| => m[i].level1)
  }

  /** The nav has one group per distinct first-level category (of the articles with at
      least two), in first-seen order. */
  lemma {:induction false} NavLevel1(data: seq<Article>)
    ensures Level1Texts(NavMap(data)) == Distinct(Level1s(data))
  {
    if |data| > 0 {
      var init := data[..|data| - 1];
      var a := data[|data| - 1];
      NavLevel1(init);
      var m := NavMap(init);
      if |a.category| >= 2 {
        var f := FindNav(m, a.category[0]);
        assert Level1s(data) == Level1s(init) + [a.category[0]];
        assert (Level1s(init) + [a.category[0]])[..|Level1s(init)|] == Level1s(init);
        if f.Some? {
          assert a.category[0] in Level1Texts(m);
        } else {
          assert a.category[0] !in Level1Texts(m);
        }
      } else {
        assert Level1s(data) == Level1s(init);
      }
    }
  }

  /** Each nav group's entries are the distinct second-level categories seen with its
      first-level one, in first-seen order. */
  lemma {:induction false} NavLevel2(data: seq<Article>)
    ensures forall k :: 0 <= k < |NavMap(data)| ==> NavMap(data)[k].level2 == Distinct(Level2s(data, NavMap(data)[k].level1))
  {
    if |data| > 0 {
      var init := data[..|data| - 1];
      NavLevel2(init);
      forall k | 0 <= k < |NavMap(data)|
        ensures NavMap(data)[k].level2 == Distinct(Level2s(data, NavMap(data)[k].level1))
      {
        NavLevel2Step(data, k);
      }
    }
  }

  /** What one article does to the entry at index k of categoryMap. */
  lemma AddNavEntry(m: seq<NavCategory>, a: Article, k: nat)
    requires forall i, j :: 0 <= i < j < |m| ==> m[i].level1 != m[j].level1
    requires k < |AddNav(m, a)|
    ensures var r := AddNav(m, a);
      if |a.category| >= 2 && r[k].level1 == a.category[0] then
        r[k].level2 == AddDistinct(if k < |m| then m[k].level2 else [], a.category[1])
        && (k == |m| ==> forall i :: 0 <= i < |m| ==> m[i].level1 != r[k].level1)
      else k < |m| && r[k] == m[k]
  {
  }

  lemma NavLevel2Step(data: seq<Article>, k: nat)
    requires |data| > 0
    requires var init := data[..|data| - 1];
      forall j :: 0 <= j < |NavMap(init)| ==> NavMap(init)[j].level2 == Distinct(Level2s(init, NavMap(init)[j].level1))
    requires k < |NavMap(data)|
    ensures NavMap(data)[k].level2 == Distinct(Level2s(data, NavMap(data)[k].level1))
  {
    var init := data[..|data| - 1];
    var a := data[|data| - 1];
    var m := NavMap(init);
    NavMapUnique(init);
    AddNavEntry(m, a, k);
    var x := NavMap(data)[k].level1;
    if |a.category| >= 2 && x == a.category[0] {
      assert Level2s(data, x) == Level2s(init, x) + [a.category[1]];
      DistinctSnoc(Level2s(init, x), a.category[1]);
      if k == |m| {
        assert x !in Level1Texts(m);
        AbsentHasNoLevel2(init, x);
      }
    } else {
      assert Level2s(data, x) == Level2s(init, x);
    }
  }

  /** No two nav entries share a first-level text. */
  lemma NavMapUnique(data: seq<Article>)
    ensures forall i, j :: 0 <= i < j < |NavMap(data)| ==> NavMap(data)[i].level1 != NavMap(data)[j].level1
  {
    var m := NavMap(data);
    NavLevel1(data);
    DistinctUnique(Level1s(data));
    assert forall i :: 0 <= i < |m| ==> m[i].level1 == Level1Texts(m)[i];
  }

  lemma DistinctSnoc(s: seq<string>, x: string)
    ensures Distinct(s + [x]) == AddDistinct(Distinct(s), x)
  {
    assert (s + [x])[..|s|] == s;
  }

  lemma {:induction false} AbsentHasNoLevel2(data: seq<Article>, level1: string)
    requires level1 !in Level1Texts(NavMap(data))
    ensures Level2s(data, level1) == []
  {
    if |data| > 0 {
      var init := data[..|data| - 1];
      var a := data[|data| - 1];
      var m := NavMap(init);
      forall k | 0 <= k < |m| ensures m[k].level1 != level1 {
        assert NavMap(data)[k].level1 == m[k].level1;
      }
      AbsentHasNoLevel2(init, level1);
      assert |a.category| >= 2 ==> a.category[0] in Level1Texts(NavMap(data)) by {
        if |a.category| >= 2 {
          var f := FindNav(m, a.category[0]);
          if f.Some? {
            assert NavMap(data)[f.value].level1 == a.category[0];
          } else {
            assert NavMap(data)[|m|].level1 == a.category[0];
          }
        }
      }
    }
  }
}
