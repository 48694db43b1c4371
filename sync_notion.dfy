/** scripts/sync-notion.js: the `NotionSync` class that turns every listed Notion page into
    a Markdown document below docs/, writes one index page per first-level category and the
    landing page, and regenerates the VitePress configuration. The file system is the
    `files` map of the class, keyed by the path relative to docs/; the remote side and the
    clock are the parameters of each call. */
module SyncNotion {
  import opened Wrappers
  import opened JsString
  import opened NotionRetry
  import opened NotionPagination
  import opened NotionProperties
  import opened NotionBlocks
  import opened NotionRender
  import opened Helper
  import opened Slug

  // ---------------------------------------------------------------- paths

  function NonEmpty(s: seq<string>): (r: seq<string>)
    ensures forall k :: 0 <= k < |r| ==> r[k] != ""
  {
    if |s| == 0 then []
    else NonEmpty(s[..|s| - 1]) + (if s[|s| - 1] != "" then [s[|s| - 1]] else [])
  }

  /** The segments path.join keeps: every part cut at '/', empty pieces dropped. */
  function Segments(parts: seq<string>): seq<string> {
    if |parts| == 0 then []
    else Segments(parts[..|parts| - 1]) + NonEmpty(Split(parts[|parts| - 1], '/'))
  }

  /** path.join of relative parts: their non-empty segments joined with '/'. */
  function PathJoin(parts: seq<string>): string {
    Join(Segments(parts), "/")
  }

  /** A category path whose every level is a non-empty name without '/'. */
  predicate PlainSegment(s: string) {
    s != "" && '/' !in s
  }

  lemma {:induction false} NonEmptyKeeps(s: seq<string>, c: char)
    requires forall k :: 0 <= k < |s| ==> c !in s[k]
    ensures forall k :: 0 <= k < |NonEmpty(s)| ==> c !in NonEmpty(s)[k]
  {
    if |s| > 0 {
      NonEmptyKeeps(s[..|s| - 1], c);
    }
  }

  /** Every segment path.join keeps is non-empty and free of '/'. */
  lemma {:induction false} SegmentsPlain(parts: seq<string>)
    ensures forall k :: 0 <= k < |Segments(parts)| ==> PlainSegment(Segments(parts)[k])
  {
    if |parts| > 0 {
      SegmentsPlain(parts[..|parts| - 1]);
      NonEmptyKeeps(Split(parts[|parts| - 1], '/'), '/');
    }
  }

  /** A joined path cuts back at '/' into exactly the non-empty segments of its parts. */
  lemma PathJoinSegments(parts: seq<string>)
    requires Segments(parts) != []
    ensures Split(PathJoin(parts), '/') == Segments(parts)
  {
    SegmentsPlain(parts);
    SplitJoin(Segments(parts), '/');
  }

  lemma SegmentsOfTwo(a: string, b: string)
    ensures Segments([a, b]) == NonEmpty(Split(a, '/')) + NonEmpty(Split(b, '/'))
  {
    assert [a, b][..1] == [a];
    assert [a][..0] == [];
    assert Segments([a]) == [] + NonEmpty(Split(a, '/'));
    assert [] + NonEmpty(Split(a, '/')) == NonEmpty(Split(a, '/'));
  }

  lemma PlainPieces(x: string)
    requires PlainSegment(x)
    ensures NonEmpty(Split(x, '/')) == [x]
  {
    SplitNoSep(x, '/');
    assert [x][..0] == [];
  }

  lemma {:induction false} NoSlashAppend(a: string, b: string)
    requires '/' !in a && '/' !in b
    ensures '/' !in a + b
  {
  }

  lemma FileNamePlain(title: string)
    requires PlainSegment(title)
    ensures PlainSegment(title + ".md")
  {
    NoSlashAppend(title, ".md");
  }

  predicate PlainCategory(category: seq<string>) {
    |category| > 0 && forall k :: 0 <= k < |category| ==> PlainSegment(category[k])
  }

  lemma {:induction false} NonEmptyPlain(s: seq<string>)
    requires forall k :: 0 <= k < |s| ==> s[k] != ""
    ensures NonEmpty(s) == s
  {
    if |s| > 0 {
      NonEmptyPlain(s[..|s| - 1]);
      assert s[..|s| - 1] + [s[|s| - 1]] == s;
    }
  }

  lemma {:induction false} JoinAppend(a: seq<string>, x: string, sep: string)
    requires |a| > 0
    ensures Join(a + [x], sep) == Join(a, sep) + sep + x
  {
    if |a| > 1 {
      assert (a + [x])[1..] == a[1..] + [x];
      JoinAppend(a[1..], x, sep);
    }
  }

  // ---------------------------------------------------------------- one page

  /** The frontmatter object processPage hands to gray-matter. */
  datatype Frontmatter = Frontmatter(
    title: string,
    description: string,
    date: Option<string>,
    updated: Option<string>,
    category: seq<string>,
    tags: seq<string>,
    notionId: string,
    notionUrl: string)

  /** What a written file holds: a document and its frontmatter, plain Markdown, or the
      VitePress configuration with its nav and sidebar. */
  datatype OutputFile =
    | Document(frontmatter: Frontmatter, content: string)
    | Markdown(text: string)
    | Config(nav: seq<NavEntry>, sidebar: seq<SidebarEntry>)

  /** An entry of the top navigation bar: the home link, or one category menu. */
  datatype NavEntry = HomeLink(text: string, link: string) | Menu(group: NavGroup)

  /** What the outside world does while one page is processed: the clock when its
      properties are read, the children listing of every block id and the image resolver. */
  datatype PageEnv = PageEnv(now: int, listings: string -> Listing<Block>, resolve: Resolver)

  /** The page's title as a heading, then the Markdown of its blocks. */
  function PageContent(title: string, body: string): string {
    "# " + title + "\n" + body
  }

  /** The first 100 characters, line breaks turned into spaces, trimmed. */
  function Description(content: string): string {
    Trim(ReplaceChar(Take(content, 100), '\n', " "))
  }

  /** Where the document lands, relative to docs/. */
  function DocPath(category: seq<string>, title: string): string {
    PathJoin([Join(category, "/"), title + ".md"])
  }

  /** The link the article record carries. */
  function ArticleSlug(category: seq<string>, title: string): string {
    "/" + Join(category, "/") + "/" + title + ".md"
  }

  function FrontmatterOf(p: PageProperties, content: string): Frontmatter {
    Frontmatter(p.title, Description(content), p.createdTime, p.lastEditedTime, p.category, p.tags, p.id, p.url)
  }

  function ArticleOf(p: PageProperties): Article {
    Article(p.title, ArticleSlug(p.category, p.title), p.category, p.createdTime, p.tags, DocPath(p.category, p.title))
  }

  /** getPageContent succeeds: every page of the block listing is fetched under withRetry. */
  predicate Loads(l: Listing<Block>) {
    forall k :: 0 <= k < NumPages(l) ==> RetrySucceeds(FaultsAt(l, k))
  }

  /** The listing getPageContent reads for this page: the children of `slug || id`. */
  function PageListing(page: RawPage, env: PageEnv): Listing<Block> {
    env.listings(ListingTarget(page.id, ParsePageProperties(page, env.now).slug))
  }

  /** What processPage returns: the article record, or null when fetching the content fails. */
  function PageArticle(page: RawPage, env: PageEnv): Option<Article> {
    if Loads(PageListing(page, env)) then Some(ArticleOf(ParsePageProperties(page, env.now))) else None
  }

  function PageDocument(page: RawPage, env: PageEnv): OutputFile {
    var p := ParsePageProperties(page, env.now);
    var content := PageContent(p.title, Render(Flatten(PageListing(page, env).pages), env.resolve));
    Document(FrontmatterOf(p, content), content)
  }

  /** The files after processPage. */
  function PageWrite(files: map<string, OutputFile>, page: RawPage, env: PageEnv): map<string, OutputFile> {
    if Loads(PageListing(page, env)) then
      var p := ParsePageProperties(page, env.now);
      files[DocPath(p.category, p.title) := PageDocument(page, env)]
    else files
  }

  /** A page whose slug property is set is rendered from the children of the block that slug
      names: whether it loads, and what its document says, depend on that listing alone,
      whatever the page's own children are. */
  lemma SlugPageReadsSlugBlock(page: RawPage, env: PageEnv, own: Listing<Block>)
    requires |page.slugTexts| > 0 && page.slugTexts[0] != ""
    ensures PageArticle(page, env).Some? <==> Loads(env.listings(page.slugTexts[0]))
    ensures page.id != page.slugTexts[0] ==>
      var other := env.(listings := (b: string) => if b == page.id then own else env.listings(b));
      PageArticle(page, other) == PageArticle(page, env) && PageDocument(page, other) == PageDocument(page, env)
  {
    ParseDefaults(page, env.now);
  }

  /** The description has at most 100 characters, no line break and no whitespace at
      either end, and is a contiguous piece of the first 100 characters with line breaks
      read as spaces. */
  lemma DescriptionShape(content: string) returns (i: nat, j: nat)
    ensures var s := ReplaceChar(Take(content, 100), '\n', " ");
      var d := Description(content);
      && |d| <= 100
      && '\n' !in d
      && (d == "" || (!IsWhitespace(d[0]) && !IsWhitespace(d[|d| - 1])))
      && i <= j <= |s| && d == s[i..j]
  {
    var s := ReplaceChar(Take(content, 100), '\n', " ");
    assert |s| <= 100 && '\n' !in s;
    i, j := TrimmedSlice(s);
  }

  /** The trimmed string is a slice of the original, so it keeps no character the
      original lacks and is no longer. */
  lemma TrimmedSlice(s: string) returns (i: nat, j: nat)
    ensures var d := Trim(s);
      && i <= j <= |s| && d == s[i..j]
      && ('\n' !in s ==> '\n' !in d)
      && (d == "" || (!IsWhitespace(d[0]) && !IsWhitespace(d[|d| - 1])))
  {
    TrimSpec(s);
    i, j :| 0 <= i <= j <= |s| && Trim(s) == s[i..j] && IsBlank(s[..i]) && IsBlank(s[j..]);
    assert forall c :: c in s[i..j] ==> c in s;
  }

  /** A document's description starts with the heading marker of its title. */
  lemma DescriptionStartsWithHeading(title: string, body: string)
    ensures var d := Description(PageContent(title, body));
      |d| >= 1 && d[0] == '#'
  {
    var c := PageContent(title, body);
    var t := Take(c, 100);
    assert t[0] == '#';
    var s := ReplaceChar(t, '\n', " ");
    assert s == [t[0]] + ReplaceChar(t[1..], '\n', " ");
    assert s[0] == '#';
    assert TrimStart(s) == s;
    TrimEndSpec(s);
    var r := TrimEnd(s);
    assert r[0] == s[0];
  }

  lemma JoinedPieces(category: seq<string>)
    requires PlainCategory(category)
    ensures NonEmpty(Split(Join(category, "/"), '/')) == category
  {
    SplitJoin(category, '/');
    NonEmptyPlain(category);
  }

  /** With plain category levels and title, the slug is the document's path below docs/
      with a leading '/'. */
  lemma SlugIsDocPath(category: seq<string>, title: string)
    requires PlainCategory(category) && PlainSegment(title)
    ensures ArticleSlug(category, title) == "/" + DocPath(category, title)
  {
    var file := title + ".md";
    FileNamePlain(title);
    SegmentsOfTwo(Join(category, "/"), file);
    JoinedPieces(category);
    PlainPieces(file);
    JoinAppend(category, file, "/");
  }

  /** A page without a category gets a slug beginning with two slashes, while its document
      sits directly in docs/. */
  lemma UncategorisedSlug(title: string)
    requires PlainSegment(title)
    ensures ArticleSlug([""], title) == "//" + title + ".md"
    ensures DocPath([""], title) == title + ".md"
  {
    FileNamePlain(title);
    assert Join([""], "/") == "";
    UncategorisedPath(title + ".md");
  }

  lemma UncategorisedPath(file: string)
    requires PlainSegment(file)
    ensures PathJoin(["", file]) == file
  {
    SegmentsOfTwo("", file);
    PlainPieces(file);
    assert NonEmpty(Split("", '/')) == [] by {
      assert Split("", '/') == [""];
      assert [""][..0] == [];
    }
    assert Segments(["", file]) == [file];
  }

  // ---------------------------------------------------------------- the run

  /** The present values of `xs`, in order. */
  function Somes<T>(xs: seq<Option<T>>): seq<T> {
    if |xs| == 0 then []
    else Somes(xs[..|xs| - 1]) + (if xs[|xs| - 1].Some? then [xs[|xs| - 1].value] else [])
  }

  lemma SomesAppend<T>(xs: seq<Option<T>>, x: Option<T>)
    ensures Somes(xs + [x]) == Somes(xs) + (if x.Some? then [x.value] else [])
  {
    assert (xs + [x])[..|xs|] == xs;
  }

  /** Somes drops exactly the absent values: it is as long as `xs` only when none is absent,
      and then it lists every value in place. */
  lemma {:induction false} SomesFull<T>(xs: seq<Option<T>>)
    ensures |Somes(xs)| <= |xs|
    ensures |Somes(xs)| == |xs| <==> forall n :: 0 <= n < |xs| ==> xs[n].Some?
    ensures |Somes(xs)| == |xs| ==> forall n :: 0 <= n < |xs| ==> Somes(xs)[n] == xs[n].value
  {
    if |xs| > 0 {
      var init := xs[..|xs| - 1];
      SomesFull(init);
      if forall n :: 0 <= n < |xs| ==> xs[n].Some? {
        assert forall n :: 0 <= n < |init| ==> init[n] == xs[n];
      }
    }
  }

  /** Every value Somes keeps comes from some entry. */
  lemma {:induction false} SomesFrom<T>(xs: seq<Option<T>>, k: nat)
    requires k < |Somes(xs)|
    ensures exists n :: 0 <= n < |xs| && xs[n] == Some(Somes(xs)[k])
  {
    var init := xs[..|xs| - 1];
    if k < |Somes(init)| {
      SomesFrom(init, k);
      var n :| 0 <= n < |init| && init[n] == Some(Somes(init)[k]);
      assert xs[n] == init[n];
    } else {
      assert xs[|xs| - 1] == Some(Somes(xs)[k]);
    }
  }

  /** What processPage returns for each page; page number n is processed under env(n). */
  function Outcomes(pages: seq<RawPage>, env: nat -> PageEnv): (r: seq<Option<Article>>)
    ensures |r| == |pages| && forall n :: 0 <= n < |pages| ==> r[n] == PageArticle(pages[n], env(n))
  {
    seq(|pages|, n requires 0 <= n < |pages| => PageArticle(pages[n], env(n)))
  }

  /** The articles the sync loop collects: those of the pages whose content loads, in page
      order. */
  function Articles(pages: seq<RawPage>, env: nat -> PageEnv): seq<Article> {
    Somes(Outcomes(pages, env))
  }

  lemma ArticlesStep(pages: seq<RawPage>, env: nat -> PageEnv, n: nat)
    requires n < |pages|
    ensures Articles(pages[..n + 1], env) == Articles(pages[..n], env)
      + (if PageArticle(pages[n], env(n)).Some? then [PageArticle(pages[n], env(n)).value] else [])
  {
    assert Outcomes(pages[..n + 1], env) == Outcomes(pages[..n], env) + [PageArticle(pages[n], env(n))];
    SomesAppend(Outcomes(pages[..n], env), PageArticle(pages[n], env(n)));
  }

  /** The files after processPage has run on every page. */
  function PageWrites(files: map<string, OutputFile>, pages: seq<RawPage>, env: nat -> PageEnv): map<string, OutputFile> {
    if |pages| == 0 then files
    else
      var n := |pages| - 1;
      PageWrite(PageWrites(files, pages[..n], env), pages[n], env(n))
  }

  lemma PageWritesStep(files: map<string, OutputFile>, pages: seq<RawPage>, env: nat -> PageEnv, n: nat)
    requires n < |pages|
    ensures PageWrites(files, pages[..n + 1], env) == PageWrite(PageWrites(files, pages[..n], env), pages[n], env(n))
  {
    assert pages[..n + 1][..n] == pages[..n];
  }

  /** No more articles than pages, and one per page exactly when every page's content
      loads; then article n is the record processPage builds for page n. */
  lemma ArticlesOfPages(pages: seq<RawPage>, env: nat -> PageEnv)
    ensures |Articles(pages, env)| <= |pages|
    ensures |Articles(pages, env)| == |pages| <==> forall n :: 0 <= n < |pages| ==> Loads(PageListing(pages[n], env(n)))
    ensures |Articles(pages, env)| == |pages| ==>
      forall n :: 0 <= n < |pages| ==> Some(Articles(pages, env)[n]) == PageArticle(pages[n], env(n))
  {
    var xs := Outcomes(pages, env);
    SomesFull(xs);
    assert forall n :: 0 <= n < |pages| ==> (xs[n].Some? <==> Loads(PageListing(pages[n], env(n))));
  }

  // ---------------------------------------------------------------- index pages

  /** One entry of the `categories` object: a first-level category and its articles. */
  datatype CategoryGroup = CategoryGroup(name: string, articles: seq<Article>)

  /** `article.category[0]` as an object key; a missing level reads as "undefined". */
  function Top(a: Article): string {
    if |a.category| > 0 then a.category[0] else "undefined"
  }

  function AllTops(articles: seq<Article>): (r: seq<string>)
    ensures |r| == |articles| && forall k :: 0 <= k < |articles| ==> r[k] == Top(articles[k])
  {
    seq(|articles|, k requires 0 <= k < |articles| => Top(articles[k]))
  }

  function Names(groups: seq<CategoryGroup>): (r: seq<string>)
    ensures |r| == |groups| && forall k :: 0 <= k < |groups| ==> r[k] == groups[k].name
  {
    seq(|groups|, k requires 0 <= k < |groups| => groups[k].name)
  }

  /** `categories[name]`. */
  function FindGroup(groups: seq<CategoryGroup>, name: string): (r: Option<nat>)
    ensures r.Some? ==> r.value < |groups| && groups[r.value].name == name
    ensures r.None? ==> forall k :: 0 <= k < |groups| ==> groups[k].name != name
  {
    FirstIndex(Names(groups), name)
  }

  function AddToGroup(groups: seq<CategoryGroup>, a: Article): seq<CategoryGroup> {
    var f := FindGroup(groups, Top(a));
    if f.None? then groups + [CategoryGroup(Top(a), [a])]
    else groups[f.value := CategoryGroup(Top(a), groups[f.value].articles + [a])]
  }

  /** The `categories` object after the forEach. */
  function Groups(articles: seq<Article>): seq<CategoryGroup> {
    if |articles| == 0 then [] else AddToGroup(Groups(articles[..|articles| - 1]), articles[|articles| - 1])
  }

  /** The articles whose first category is `name`, in order. */
  function InCategory(articles: seq<Article>, name: string): seq<Article> {
    if |articles| == 0 then []
    else
      var a := articles[|articles| - 1];
      InCategory(articles[..|articles| - 1], name) + (if Top(a) == name then [a] else [])
  }

  lemma {:induction false} InCategoryEmpty(articles: seq<Article>, name: string)
    requires name !in AllTops(articles)
    ensures InCategory(articles, name) == []
  {
    if |articles| > 0 {
      var init := articles[..|articles| - 1];
      assert forall k :: 0 <= k < |init| ==> AllTops(init)[k] == AllTops(articles)[k];
      InCategoryEmpty(init, name);
    }
  }

  /** The groups are the distinct first categories in first-seen order, and each holds
      exactly the articles of its category, in their order. */
  lemma {:induction false} GroupsByCategory(articles: seq<Article>)
    ensures Names(Groups(articles)) == Distinct(AllTops(articles))
    ensures forall k :: 0 <= k < |Groups(articles)| ==>
      Groups(articles)[k].articles == InCategory(articles, Groups(articles)[k].name)
  {
    if |articles| > 0 {
      var init := articles[..|articles| - 1];
      var a := articles[|articles| - 1];
      GroupsByCategory(init);
      var gs := Groups(init);
      DistinctUnique(AllTops(init));
      assert AllTops(articles) == AllTops(init) + [Top(a)];
      assert (AllTops(init) + [Top(a)])[..|AllTops(init)|] == AllTops(init);
      var f := FindGroup(gs, Top(a));
      if f.None? {
        assert Top(a) !in Names(gs);
        InCategoryEmpty(init, Top(a));
        assert Names(Groups(articles)) == Names(gs) + [Top(a)];
      } else {
        assert Top(a) in Names(gs);
        assert Names(Groups(articles)) == Names(gs);
        forall k | 0 <= k < |gs| && k != f.value
          ensures gs[k].name != Top(a)
        {
          assert Names(gs)[k] != Names(gs)[f.value];
        }
      }
    }
  }

  function TotalSize(groups: seq<CategoryGroup>): nat {
    if |groups| == 0 then 0 else TotalSize(groups[..|groups| - 1]) + |groups[|groups| - 1].articles|
  }

  lemma {:induction false} TotalSizeUpdate(groups: seq<CategoryGroup>, k: nat, g: CategoryGroup)
    requires k < |groups|
    ensures TotalSize(groups[k := g]) + |groups[k].articles| == TotalSize(groups) + |g.articles|
  {
    var n := |groups| - 1;
    if k < n {
      TotalSizeUpdate(groups[..n], k, g);
      assert groups[k := g][..n] == groups[..n][k := g];
    } else {
      assert groups[k := g][..n] == groups[..n];
    }
  }

  /** Every article is counted in exactly one group. */
  lemma {:induction false} GroupsCoverAll(articles: seq<Article>)
    ensures TotalSize(Groups(articles)) == |articles|
  {
    if |articles| > 0 {
      var init := articles[..|articles| - 1];
      var a := articles[|articles| - 1];
      GroupsCoverAll(init);
      var gs := Groups(init);
      var f := FindGroup(gs, Top(a));
      if f.None? {
        assert (gs + [CategoryGroup(Top(a), [a])])[..|gs|] == gs;
      } else {
        TotalSizeUpdate(gs, f.value, CategoryGroup(Top(a), gs[f.value].articles + [a]));
      }
    }
  }

  function ArticleLine(a: Article): string {
    "- [" + a.title + "](" + a.slug + ")"
  }

  function ArticleLines(articles: seq<Article>): (r: seq<string>)
    ensures |r| == |articles| && forall k :: 0 <= k < |articles| ==> r[k] == ArticleLine(articles[k])
  {
    seq(|articles|, k requires 0 <= k < |articles| => ArticleLine(articles[k]))
  }

  /** A category's index page: its name as a heading, a blank line, one link per article. */
  function CategoryPage(g: CategoryGroup): string {
    "# " + g.name + "\n\n" + Join(ArticleLines(g.articles), "\n")
  }

  predicate OneLine(s: string) {
    '\n' !in s
  }

  predicate OneLineArticle(a: Article) {
    OneLine(a.title) && OneLine(a.slug)
  }

  lemma ArticleLineOneLine(a: Article)
    requires OneLineArticle(a)
    ensures OneLine(ArticleLine(a))
  {
    assert forall c :: c in ArticleLine(a) ==> c in a.title || c in a.slug || c in "- [](" || c in ")";
  }

  /** A category page reads line by line as its heading, a blank line and the links of its
      articles in order. */
  lemma CategoryPageLines(g: CategoryGroup)
    requires |g.articles| > 0 && OneLine(g.name)
    requires forall k :: 0 <= k < |g.articles| ==> OneLineArticle(g.articles[k])
    ensures Split(CategoryPage(g), '\n') == ["# " + g.name, ""] + ArticleLines(g.articles)
  {
    var lines := ["# " + g.name, ""] + ArticleLines(g.articles);
    assert lines[1..] == [""] + ArticleLines(g.articles);
    assert lines[1..][1..] == ArticleLines(g.articles);
    assert Join(lines, "\n") == CategoryPage(g);
    assert OneLine("# " + g.name) by {
      assert forall c :: c in "# " + g.name ==> c in g.name || c in "# ";
    }
    forall k | 0 <= k < |g.articles| ensures OneLine(ArticleLines(g.articles)[k]) {
      ArticleLineOneLine(g.articles[k]);
    }
    SplitJoin(lines, '\n');
  }

  /** One feature card of the landing page. */
  function Feature(g: CategoryGroup): string {
    "  - title: " + g.name + "\n    link: /" + g.name + "/\n    details: " + NatToString(|g.articles|) + " 篇文章"
  }

  function Features(groups: seq<CategoryGroup>): (r: seq<string>)
    ensures |r| == |groups| && forall k :: 0 <= k < |groups| ==> r[k] == Feature(groups[k])
  {
    seq(|groups|, k requires 0 <= k < |groups| => Feature(groups[k]))
  }

  /** The entries of the latest-articles list; `localeDate` renders
      `new Date(date).toLocaleDateString()`. */
  function LatestLines(articles: seq<Article>, localeDate: Option<string> -> string): (r: seq<string>)
    ensures |r| == |articles|
  {
    seq(|articles|, k requires 0 <= k < |articles| => ArticleLine(articles[k]) + " - " + localeDate(articles[k].date))
  }

  const LandingHead: string :=
    "---\nlayout: home\nhero:\n  name: \"windDrop\"\n  text: \"学习笔记\"\n  image:\n    src: /crocodile.png\n"
    + "    alt: 背景图\n  actions:\n    - theme: alt\n      text: View on GitHub\n"
    + "      link: https://github.com/raindropLiu\nfeatures:\n"

  /** The landing page: the hero block, one feature per category, then the first ten articles. */
  function LandingPage(groups: seq<CategoryGroup>, articles: seq<Article>, localeDate: Option<string> -> string): string {
    LandingHead + Join(Features(groups), "\n") + "\n---\n\n## 最新文章\n\n"
    + Join(LatestLines(Take10(articles), localeDate), "\n")
  }

  function Take10(articles: seq<Article>): (r: seq<Article>)
    ensures |r| == if |articles| < 10 then |articles| else 10
    ensures r == articles[..|r|]
  {
    if |articles| <= 10 then articles else articles[..10]
  }

  /** Each feature card of the landing page counts the articles of its category. */
  lemma FeatureCounts(articles: seq<Article>, k: nat)
    requires k < |Groups(articles)|
    ensures var n := Groups(articles)[k].name;
      Features(Groups(articles))[k]
      == "  - title: " + n + "\n    link: /" + n + "/\n    details: " + NatToString(|InCategory(articles, n)|) + " 篇文章"
  {
    GroupsByCategory(articles);
  }

  /** The latest-articles part lists the first min(10, n) articles, one per line and in
      order. */
  lemma LatestListLines(articles: seq<Article>, localeDate: Option<string> -> string)
    requires |articles| > 0
    requires forall k :: 0 <= k < |LatestLines(Take10(articles), localeDate)| ==> OneLine(LatestLines(Take10(articles), localeDate)[k])
    ensures var lines := Split(Join(LatestLines(Take10(articles), localeDate), "\n"), '\n');
      && |lines| == (if |articles| < 10 then |articles| else 10)
      && forall k :: 0 <= k < |lines| ==> StartsWith(lines[k], ArticleLine(articles[k]) + " - ")
  {
    var ls := LatestLines(Take10(articles), localeDate);
    SplitJoin(ls, '\n');
    forall k | 0 <= k < |ls| ensures StartsWith(ls[k], ArticleLine(articles[k]) + " - ") {
      var p := ArticleLine(articles[k]) + " - ";
      assert ls[k] == p + localeDate(articles[k].date);
      assert ls[k][..|p|] == p;
    }
  }

  function IndexPath(g: CategoryGroup): string {
    PathJoin([g.name, "index.md"])
  }

  /** The files after the category pages of `groups` are written in order. */
  function WriteCategoryPages(files: map<string, OutputFile>, groups: seq<CategoryGroup>): map<string, OutputFile> {
    if |groups| == 0 then files
    else
      var g := groups[|groups| - 1];
      WriteCategoryPages(files, groups[..|groups| - 1])[IndexPath(g) := Markdown(CategoryPage(g))]
  }

  /** The files after generateIndex. */
  function IndexFiles(files: map<string, OutputFile>, articles: seq<Article>, localeDate: Option<string> -> string): map<string, OutputFile> {
    var groups := Groups(articles);
    WriteCategoryPages(files, groups)["index.md" := Markdown(LandingPage(groups, articles, localeDate))]
  }

  lemma IndexFilePlain()
    ensures PlainSegment("index.md")
  {
  }

  lemma IndexPathPlain(name: string)
    requires PlainSegment(name)
    ensures PathJoin([name, "index.md"]) == name + "/" + "index.md"
  {
    IndexFilePlain();
    SegmentsOfTwo(name, "index.md");
    PlainPieces(name);
    PlainPieces("index.md");
    var segs := [name, "index.md"];
    assert Segments(segs) == segs;
    assert segs[1..] == ["index.md"];
    assert Join(segs, "/") == name + "/" + "index.md";
  }

  lemma {:induction false} CategoryPageStays(files: map<string, OutputFile>, groups: seq<CategoryGroup>, k: nat)
    requires k < |groups|
    requires forall i, j :: 0 <= i < j < |groups| ==> IndexPath(groups[i]) != IndexPath(groups[j])
    ensures IndexPath(groups[k]) in WriteCategoryPages(files, groups)
    ensures WriteCategoryPages(files, groups)[IndexPath(groups[k])] == Markdown(CategoryPage(groups[k]))
  {
    var n := |groups| - 1;
    if k < n {
      CategoryPageStays(files, groups[..n], k);
    }
  }

  /** After generateIndex, every category with a plain name has its page at
      "<name>/index.md", and the landing page is at "index.md". */
  lemma IndexPagesWritten(files: map<string, OutputFile>, articles: seq<Article>, localeDate: Option<string> -> string, k: nat)
    requires k < |Groups(articles)|
    requires forall i :: 0 <= i < |Groups(articles)| ==> PlainSegment(Groups(articles)[i].name)
    ensures var out := IndexFiles(files, articles, localeDate);
      var g := Groups(articles)[k];
      && g.name + "/" + "index.md" in out && out[g.name + "/" + "index.md"] == Markdown(CategoryPage(g))
      && out["index.md"] == Markdown(LandingPage(Groups(articles), articles, localeDate))
  {
    var gs := Groups(articles);
    GroupsByCategory(articles);
    DistinctUnique(AllTops(articles));
    DistinctIndexPaths(gs);
    CategoryPageStays(files, gs, k);
    IndexPathPlain(gs[k].name);
    assert |gs[k].name + "/" + "index.md"| != |"index.md"|;
  }

  /** Groups with distinct plain names have distinct index paths. */
  lemma DistinctIndexPaths(gs: seq<CategoryGroup>)
    requires forall i :: 0 <= i < |gs| ==> PlainSegment(gs[i].name)
    requires forall i, j :: 0 <= i < j < |Names(gs)| ==> Names(gs)[i] != Names(gs)[j]
    ensures forall i, j :: 0 <= i < j < |gs| ==> IndexPath(gs[i]) != IndexPath(gs[j])
  {
    forall i, j | 0 <= i < j < |gs| ensures IndexPath(gs[i]) != IndexPath(gs[j]) {
      assert Names(gs)[i] != Names(gs)[j];
      IndexPathPlain(gs[i].name);
      IndexPathPlain(gs[j].name);
      if gs[i].name + "/" + "index.md" == gs[j].name + "/" + "index.md" {
        SplitJoinName(gs[i].name);
        SplitJoinName(gs[j].name);
      }
    }
  }

  lemma SplitJoinName(name: string)
    requires PlainSegment(name)
    ensures Split(name + "/" + "index.md", '/')[0] == name
  {
    IndexFilePlain();
    SplitNoSep(name, '/');
    SplitNoSep("index.md", '/');
    SplitJoin([name, "index.md"], '/');
    assert Join([name, "index.md"], "/") == name + "/" + "index.md";
  }

  // ---------------------------------------------------------------- configuration

  const HomeEntry: NavEntry := HomeLink("首页", "/")

  /** The navigation bar: the home link, then the category menus of organizeNav. */
  function SiteNav(articles: seq<Article>): (r: seq<NavEntry>)
    ensures |r| == 1 + |NavOf(NavMap(articles))|
    ensures r[0] == HomeEntry
    ensures forall k :: 0 <= k < |NavOf(NavMap(articles))| ==> r[k + 1] == Menu(NavOf(NavMap(articles))[k])
  {
    var groups := NavOf(NavMap(articles));
    [HomeEntry] + seq(|groups|, k requires 0 <= k < |groups| => Menu(groups[k]))
  }

  const ConfigPath: string := ".vitepress/config.mjs"

  /** The files after updateVitePressConfig; None when organizeData throws. */
  function ConfigWrite(files: map<string, OutputFile>, articles: seq<Article>): Option<map<string, OutputFile>> {
    var sidebar := OrganizeDataSpec(articles);
    if sidebar.None? then None else Some(files[ConfigPath := Config(SiteNav(articles), sidebar.value)])
  }

  /** The menus after the home link follow the distinct first-level categories of the
      articles filed at least two levels deep, in first-seen order. */
  lemma SiteNavMenus(articles: seq<Article>)
    ensures |SiteNav(articles)| == 1 + |Distinct(Level1s(articles))|
    ensures forall k :: 0 <= k < |Distinct(Level1s(articles))| ==>
      SiteNav(articles)[k + 1].Menu? && SiteNav(articles)[k + 1].group.text == Distinct(Level1s(articles))[k]
  {
    NavLevel1(articles);
  }

  /** The outcome of a whole run: the final files and whether process.exit(1) is called. */
  datatype RunResult = RunResult(files: map<string, OutputFile>, failed: bool)

  /** sync(): when listing the pages fails nothing is written; otherwise every page is
      processed, the index pages are written and then the configuration, whose failure
      leaves the files written so far. */
  function SyncSpec(files: map<string, OutputFile>, pages: Result<seq<RawPage>, string>,
                    env: nat -> PageEnv, localeDate: Option<string> -> string): RunResult
  {
    if pages.Err? then RunResult(files, true)
    else
      var articles := Articles(pages.value, env);
      var indexed := IndexFiles(PageWrites(files, pages.value, env), articles, localeDate);
      var configured := ConfigWrite(indexed, articles);
      if configured.None? then RunResult(indexed, true) else RunResult(configured.value, false)
  }

  /** Every collected article links to a non-empty slug. */
  lemma ArticleSlugsNonEmpty(pages: seq<RawPage>, env: nat -> PageEnv)
    ensures forall k :: 0 <= k < |Articles(pages, env)| ==> Articles(pages, env)[k].slug != ""
  {
    forall k | 0 <= k < |Articles(pages, env)| ensures Articles(pages, env)[k].slug != "" {
      SomesFrom(Outcomes(pages, env), k);
    }
  }

  /** Once the pages are listed the run never exits with 1: organizeData cannot throw on
      records whose links are all non-empty, so the configuration and the landing page are
      always written. */
  lemma SyncSucceeds(files: map<string, OutputFile>, pages: seq<RawPage>, env: nat -> PageEnv, localeDate: Option<string> -> string)
    ensures var r := SyncSpec(files, Ok(pages), env, localeDate);
      && !r.failed
      && ConfigPath in r.files && r.files[ConfigPath].Config?
      && "index.md" in r.files && r.files["index.md"].Markdown?
  {
    ArticleSlugsNonEmpty(pages, env);
    CollectPlacesAll(Articles(pages, env));
  }

  class NotionSync {
    /** The files below docs/, by path relative to it. */
    var files: map<string, OutputFile>
    /** The code process.exit was called with, if it was. */
    var exitCode: Option<nat>

    constructor(initial: map<string, OutputFile>)
      ensures files == initial && exitCode == None
    {
      files := initial;
      exitCode := None;
    }

    /** processPage: parse the properties, fetch and render the blocks, write the document;
        a failure while fetching is caught and yields null. */
    method ProcessPage(page: RawPage, env: PageEnv) returns (article: Option<Article>)
      modifies this
      ensures article == PageArticle(page, env)
      ensures files == PageWrite(old(files), page, env)
      ensures exitCode == old(exitCode)
    {
      var properties := ParsePageProperties(page, env.now);
      var blocks, delays := GetPageContent(page.id, properties.slug, env.listings);
      if blocks.Err? {
        return None;
      }
      var body := BlocksToMarkdown(blocks.value, env.resolve);
      var content := PageContent(properties.title, body);
      // computed by the source and never used afterwards
      var slug := if properties.slug != "" then properties.slug else GenerateSlug(properties.title);
      var frontmatter := FrontmatterOf(properties, content);
      var filePath := DocPath(properties.category, properties.title);
      files := files[filePath := Document(frontmatter, content)];
      article := Some(ArticleOf(properties));
    }

    /** The forEach that fills `categories`. */
    static method GroupByCategory(articles: seq<Article>) returns (groups: seq<CategoryGroup>)
      ensures groups == Groups(articles)
    {
      groups := [];
      for n := 0 to |articles|
        invariant groups == Groups(articles[..n])
      {
        assert articles[..n + 1][..n] == articles[..n];
        var category := Top(articles[n]);
        ghost var before := groups;
        var f := FindGroup(groups, category);
        var k := if f.None? then |groups| else f.value;
        if f.None? {
          groups := groups + [CategoryGroup(category, [])];
        }
        var list := groups[k].articles + [articles[n]];
        if f.None? {
          assert list == [articles[n]];
        }
        groups := groups[k := CategoryGroup(category, list)];
        if f.None? {
          assert groups == before + [CategoryGroup(category, [articles[n]])];
        }
      }
      assert articles[..|articles|] == articles;
    }

    /** generateIndex */
    method GenerateIndex(articles: seq<Article>, localeDate: Option<string> -> string)
      modifies this
      ensures files == IndexFiles(old(files), articles, localeDate)
      ensures exitCode == old(exitCode)
    {
      var groups := GroupByCategory(articles);
      WriteCategoryIndexes(groups);
      files := files["index.md" := Markdown(LandingPage(groups, articles, localeDate))];
    }

    /** The loop of generateIndex that writes one index page per category. */
    method WriteCategoryIndexes(groups: seq<CategoryGroup>)
      modifies this
      ensures files == WriteCategoryPages(old(files), groups)
      ensures exitCode == old(exitCode)
    {
      for i := 0 to |groups|
        invariant files == WriteCategoryPages(old(files), groups[..i])
        invariant exitCode == old(exitCode)
      {
        assert groups[..i + 1][..i] == groups[..i];
        var indexContent := CategoryPage(groups[i]);
        var indexPath := PathJoin([groups[i].name, "index.md"]);
        assert indexPath == IndexPath(groups[i]);
        ghost var before := files;
        files := files[indexPath := Markdown(indexContent)];
        assert WriteCategoryPages(old(files), groups[..i + 1]) == before[IndexPath(groups[i]) := Markdown(CategoryPage(groups[i]))];
      }
      assert groups[..|groups|] == groups;
    }

    /** updateVitePressConfig; `ok` is false when organizeData throws. */
    method UpdateVitePressConfig(articles: seq<Article>) returns (ok: bool)
      modifies this
      ensures ok == ConfigWrite(old(files), articles).Some?
      ensures files == if ok then ConfigWrite(old(files), articles).value else old(files)
      ensures exitCode == old(exitCode)
    {
      var sidebar := OrganizeData(articles);
      if sidebar.None? {
        return false;
      }
      var nav := OrganizeNav(articles);
      var entries := [HomeEntry] + seq(|nav|, k requires 0 <= k < |nav| => Menu(nav[k]));
      files := files[ConfigPath := Config(entries, sidebar.value)];
      ok := true;
    }

    /** sync(): `pages` is what getPages returns or throws. */
    method Sync(pages: Result<seq<RawPage>, string>, env: nat -> PageEnv, localeDate: Option<string> -> string)
      modifies this
      ensures var r := SyncSpec(old(files), pages, env, localeDate);
        files == r.files && exitCode == if r.failed then Some(1) else old(exitCode)
    {
      if pages.Err? {
        exitCode := Some(1);
        return;
      }
      var articles := ProcessPages(pages.value, env);
      GenerateIndex(articles, localeDate);
      var ok := UpdateVitePressConfig(articles);
      if !ok {
        exitCode := Some(1);
      }
    }

    /** The loop of sync() over the listed pages. */
    method ProcessPages(list: seq<RawPage>, env: nat -> PageEnv) returns (articles: seq<Article>)
      modifies this
      ensures articles == Articles(list, env)
      ensures files == PageWrites(old(files), list, env)
      ensures exitCode == old(exitCode)
    {
      articles := [];
      for n := 0 to |list|
        invariant articles == Articles(list[..n], env)
        invariant files == PageWrites(old(files), list[..n], env)
        invariant exitCode == old(exitCode)
      {
        ArticlesStep(list, env, n);
        PageWritesStep(old(files), list, env, n);
        var article := ProcessPage(list[n], env(n));
        if article.Some? {
          articles := articles + [article.value];
        }
      }
      assert list[..|list|] == list;
    }
  }
}
