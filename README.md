# Notion to VitePress sync — a verified model

The scripting core of a note site that copies pages from a Notion database into a VitePress
documentation tree, modelled in Dafny with its properties proved. The model covers these parts:

- **The Notion client** (`scripts/notion-client.js`):
  - the retry wrapper `withRetry`, with its `retryConfig` and `isRetryableError`;
  - the cursor-paginated block listing `getPageContent`;
  - `parsePageProperties`;
  - the Markdown renderer `blocksToMarkdown` / `richTextToMarkdown`.
- **The image uploader** (`scripts/image-uploader.js`):
  - the cache keyed by the image URL's md5, with its 24-hour freshness and 7-day clean-up;
  - the file extension and the file name;
  - the three-attempt upload and its defensive parsing of the reply;
  - `processImage`, with its fallback to the original URL;
  - the batch loop.
- **The sync driver** (`scripts/sync-notion.js`):
  - `generateSlug`;
  - `processPage`, which writes one document with frontmatter;
  - the `sync` loop;
  - `generateIndex`, which writes one index page per category and the landing page;
  - `updateVitePressConfig`, which builds the navigation bar and the sidebar.
- **The sidebar and nav builders** `isDuplicate`, `organizeData` and `organizeNav` (`scripts/helper.js`).
- **The in-place numeric bubble sort** `bubble_sort` of sidebar entries (`docs/.vitepress/utils.ts`).

How the files map to the scripts:

| file | what it models |
|---|---|
| `wrappers.dfy` | `Option` and `Result` |
| `js_string.dfy` | the JavaScript string operations the scripts use: trim, split/join, includes, ASCII lower-casing, number to string |
| `js_number.dfy` | `Number(string)`: the StringToNumber conversion of ECMAScript (section 7.1.4.1.1), over exact values; also the comparison `>` |
| `notion_retry.dfy` | `withRetry`, `isRetryableError`, `retryConfig` |
| `notion_pagination.dfy` | `getPageContent` |
| `notion_properties.dfy` | `parsePageProperties` |
| `notion_rich_text.dfy` | `richTextToMarkdown` |
| `notion_blocks.dfy` | the Markdown of every block type, as functions |
| `notion_render.dfy` | the loops of `blocksToMarkdown`, as methods proved equal to those functions |
| `image_naming.dfy` | `getFileExtension` (including the URL pattern's leftmost-match semantics) and `generateFileName` |
| `image_upload.dfy` | `uploadToImageBed` |
| `image_cache.dfy` | the cache, `downloadImage`, `processImage`, `processBatchImages`, `cleanExpiredCache`, and the `ImageUploader` class that owns the cache directory |
| `slug.dfy` | `generateSlug` |
| `helper.dfy` | `isDuplicate`, `organizeData`, `organizeNav` |
| `sync_notion.dfy` | the `NotionSync` class, whose state is the map of files under `docs/` (plus `process.exit`'s code) |
| `bubble_sort.dfy` | `bubble_sort`, on an `array` in place |

How the outside world enters the model:

- **Remote and local services are scripted parameters.** This applies to the Notion API, the image host, the upload endpoint, the clock, `Math.random`, md5, the locale date format and the URL parser:
  - an `Operation` lists the errors a call throws before it succeeds;
  - a `Listing` gives the pages of a block listing and the failures of each page request;
  - an upload reply function gives the reply to attempt `k`;
  - and so on.
- **Delays are returned as sequences** instead of being slept.

Quirks of the code as written, which the model reproduces:

- **A `mention` block can never render.** The arm assigns to `text`, which is the `const` of the `paragraph` arm in the same `switch` scope and is still uninitialised. The assignment throws, so every mention block renders as the per-block failure comment. None of the user, page, date or template forms is ever produced.
- **The callout icon is always "💡".** `icon?.emoji || "💡"` is a string, and a string has no `type`, so the colour table never applies.
- **Rich-text markers nest with bold innermost.** Bold is applied first, then italic, strikethrough and code, and the link goes outermost.
- **The numeric sort only reorders neighbours whose keys are both numbers.** An entry whose key is NaN never moves, and it separates the numeric stretches on either side of it. Each stretch is sorted, stably.
- **A page without a category gets the category `[""]`.** Its document lands directly in `docs/`, while its article link is `//<title>.md`.

## Model

| member | source | states |
|---|---|---|
| NotionRetry.BackoffSchedule | scripts/notion-client.js:33-38 | the waits after failed attempts 1–4 are 1000, 2000, 4000 and 8000 ms (base 1000, factor 2) |
| NotionRetry.BackoffCapped | scripts/notion-client.js:83-88 | from the fifth attempt on, the formula gives the 10000 ms cap. withRetry never waits after its fifth attempt, so the loop never takes this wait |
| NotionRetry.AnyTokenMatchesIff | scripts/notion-client.js:113-119 | the `some` scan over the tokens holds exactly when some token matches the lower-cased message or code |
| NotionRetry.IsRetryableIff | scripts/notion-client.js:101-122 | an error is retryable exactly when one of the seven tokens occurs in its lower-cased message or equals its lower-cased code, or its status is in [500, 600) |
| NotionRetry.WithRetry | scripts/notion-client.js:57-98 | between 1 and 5 calls, every call before the last having failed retryably. Success comes exactly when the operation fails fewer than 5 times, all retryably; it then yields the operation's value after failures+1 calls. When it gives up (a non-retryable error, or the fifth failure), the message wraps that call's error with the context. The waits follow the backoff schedule |
| NotionPagination.ListingTarget | scripts/notion-client.js:172 | the block listed is the slug when the slug is non-empty and the page id otherwise, and is empty only when both are |
| NotionPagination.GetPageContent | scripts/notion-client.js:164-193 | reads the listing of `slug || pageId`. It succeeds exactly when every page request succeeds under withRetry, and returns all pages' blocks in page order with exactly pages−1 pauses of 400 ms. Otherwise it stops at the first page whose retries give up, with that page's give-up message |
| NotionPagination.RetryDelaysAreNotPageDelays | scripts/notion-client.js:83-88 | no backoff wait equals the 400 ms page pause, so the pauses counted are the page pauses |
| NotionPagination.FirstFailureIsTheStop | scripts/notion-client.js:77-79 | the call at which withRetry gives up is the first non-retryable failure, or the fifth call |
| NotionProperties.ParsePageProperties | scripts/notion-client.js:292-307 | id, url, tags and the created and edited times are copied from the page |
| NotionProperties.ParseDefaults | scripts/notion-client.js:296-303 | a missing or empty title, slug or status gives "Untitled", "" and "draft"; otherwise the first run's text or the status name is kept; indexDate is the parse time exactly when the page has no date |
| NotionProperties.CategoryPath | scripts/notion-client.js:298-300 | the category path is never empty: it is the category text cut at "/" (joining it back gives the text), and `[""]` when the page has no category |
| NotionRichText.WrapOrder | scripts/notion-client.js:694-712 | a run's Markdown is its opening markers, its text, then its closing markers, with bold innermost and the link outermost |
| NotionRichText.PlainRun | scripts/notion-client.js:695-709 | a run with no annotation and no link is its plain text |
| NotionRichText.AllMarkers | scripts/notion-client.js:694-712 | a run with every annotation and a link renders as ``[`~~***x***~~`](u)`` |
| NotionRichText.RunLength | scripts/notion-client.js:694-712 | annotation only adds characters around the plain text |
| NotionRichText.RunsAppend | scripts/notion-client.js:693-715 | the conversion of a concatenation of runs is the concatenation of their conversions |
| NotionRichText.RunsCons | scripts/notion-client.js:693-715 | a list's Markdown is its first run's Markdown followed by the rest's |
| NotionRichText.RichTextToMarkdown | scripts/notion-client.js:689-691 | anything that is not an array gives the empty string |
| NotionBlocks.RenderBlock | scripts/notion-client.js:316-682 | a mention block gives the failure comment "mention"; every other block gives its arm's output, which never throws |
| NotionBlocks.RenderAppend | scripts/notion-client.js:311-686 | the Markdown of a block list is the Markdown of its parts, in order |
| NotionBlocks.MentionIsolated | scripts/notion-client.js:436-499 | a failing mention block contributes exactly its placeholder, and its siblings render as without it |
| NotionBlocks.MentionPlaceholder | scripts/notion-client.js:679-682 | a mention block renders as `<!-- 块处理失败: mention -->` |
| NotionBlocks.UnknownShowsChildren | scripts/notion-client.js:664-677 | a block of an unknown type shows exactly its children's Markdown, or nothing when it has none or they cannot be listed |
| NotionBlocks.ChildFailureSwallowed | scripts/notion-client.js:345-364 | a failed child listing is swallowed: every block but a table renders as if it had no children |
| NotionBlocks.TableFailure | scripts/notion-client.js:657-660 | a table whose rows cannot be listed renders as the table placeholder |
| NotionBlocks.TableWithoutRows | scripts/notion-client.js:640-655 | a table with no table_row child renders as nothing |
| NotionBlocks.NoRowsIffNoTableRow | scripts/notion-client.js:630-637 | there are no rows exactly when no child is a table_row |
| NotionBlocks.PadLines | scripts/notion-client.js:353-357 | each line is kept when blank and prefixed with the pad otherwise |
| NotionBlocks.IndentLines | scripts/notion-client.js:353-357 | the indented children's lines are the children's lines, every non-blank one prefixed with the pad |
| NotionBlocks.ListItemChildLines | scripts/notion-client.js:338-365 | a bulleted item's children keep their lines, each non-blank one indented by two spaces |
| NotionBlocks.QuoteLines | scripts/notion-client.js:555-559 | a blank line becomes ">", any other line "> " and the line |
| NotionBlocks.QuoteBlockLines | scripts/notion-client.js:555-559 | the quoted children's lines are ">" for a blank line and "> " and the line otherwise |
| NotionBlocks.NumberedAlwaysOne | scripts/notion-client.js:367-372 | every numbered item is written "1. ", whatever its position |
| NotionBlocks.CalloutHeaderText | scripts/notion-client.js:524-546 | the callout header is `> 💡  **注意**`, a `> ` line and the text, for every icon and colour |
| NotionBlocks.CalloutIconFixed | scripts/notion-client.js:524-546 | every callout block's output starts with that fixed header |
| NotionBlocks.CalloutArm | scripts/notion-client.js:524-573 | a callout block's output is its header followed by the rest of the arm's output |
| NotionBlocks.EscapeRoundTrip | scripts/notion-client.js:632-634 | escaping the pipes of a cell loses nothing: unescaping gives the cell back |
| NotionBlocks.EscapedPipesFollowBackslash | scripts/notion-client.js:632-634 | every pipe of an escaped cell follows a backslash, so no cell adds a column |
| NotionBlocks.Pad | scripts/notion-client.js:648-650 | a padded row keeps its cells and is filled with "" up to the header width |
| NotionBlocks.Dashes | scripts/notion-client.js:643 | the separator row has one "---" per header cell |
| NotionRender.BlocksToMarkdown | scripts/notion-client.js:311-686 | the loop's Markdown is the rendering of the block list, a failing block leaving only its placeholder |
| NotionRender.BlockToMarkdown | scripts/notion-client.js:316-682 | one iteration (the switch inside the per-block try) yields the block's rendering |
| NotionRender.RenderTable | scripts/notion-client.js:623-661 | the table arm writes the header, the separator, and the data rows of the table_row children |
| NotionRender.CollectRows | scripts/notion-client.js:630-637 | the rows are the escaped cells of the table_row children, in order, other children skipped |
| NotionRender.WriteDataRows | scripts/notion-client.js:645-652 | each data row is written padded to the header width |
| NotionRender.PadRow | scripts/notion-client.js:648-650 | the row after the push loop is the row padded to the width |
| ImageNaming.ContentTypeExtension | scripts/image-uploader.js:156-168 | a content type in the table gives a known extension, never ".jpeg" |
| ImageNaming.ExtensionShape | scripts/image-uploader.js:154-180 | the extension always starts with a dot and is a known one; the table decides first, then the URL, and ".jpg" when neither gives one |
| ImageNaming.FirstMatchIsLeftmost | scripts/image-uploader.js:171-173 | the URL pattern's match starts at the leftmost position where it can match |
| ImageNaming.NoMatchIffNowhere | scripts/image-uploader.js:171-174 | the URL gives no extension exactly when the pattern matches at no position |
| ImageNaming.FirstMatchSkips | scripts/image-uploader.js:171-173 | positions where the pattern fails are skipped in order |
| ImageNaming.AlternativeMatches | scripts/image-uploader.js:172 | at a dot, the alternative equal to the lower-cased text that follows matches |
| ImageNaming.AlternativeUnique | scripts/image-uploader.js:172 | no two alternatives match at the same position |
| ImageNaming.SuffixOfPlainUrl | scripts/image-uploader.js:171-176 | a URL whose only dot introduces a known extension, in any case, optionally followed by a query, gives that extension lower-cased |
| ImageNaming.FileNameRoundTrip | scripts/image-uploader.js:183-189 | the name splits at its underscores into "notion", the timestamp (read back as the same number) and the random suffix followed by the extension |
| ImageUpload.FirstTruthyIsFirst | scripts/image-uploader.js:230-241 | the `a \|\| b \|\| c \|\| d` chain yields its first truthy operand, and nothing exactly when none is truthy |
| ImageUpload.ArrayPrefersSrcObjectPrefersUrl | scripts/image-uploader.js:228-242 | in an array reply the first element's `src` wins over `url`; in an object reply `url` wins over `src` |
| ImageUpload.NullFirstElementFallsBack | scripts/image-uploader.js:224-246 | a null first element makes the property read throw inside the parsing block, so the trimmed raw text is the path |
| ImageUpload.PlainTextReply | scripts/image-uploader.js:243-246 | a reply that is not JSON is the trimmed text, made absolute |
| ImageUpload.EmptyPathFails | scripts/image-uploader.js:248-250 | a reply without a truthy path field fails with the raw text in the message |
| ImageUpload.NumericPathThrows | scripts/image-uploader.js:253 | a truthy path that is not a string makes `startsWith` throw |
| ImageUpload.LeadingSlash | scripts/image-uploader.js:253-255 | the path starts with "/" afterwards, and is unchanged when it already did |
| ImageUpload.SuccessShape | scripts/image-uploader.js:252-260 | a successful attempt's URL is the base URL followed by a path starting with "/" |
| ImageUpload.UploadDelays | scripts/image-uploader.js:268-272 | the two waits between attempts are 1000 and 2000 ms |
| ImageUpload.UploadResultIsFirstSuccess | scripts/image-uploader.js:192-277 | the upload succeeds exactly when one of the three attempts does, with the first successful attempt's URL; otherwise it fails with the third attempt's error, wrapped |
| ImageUpload.UploadToImageBed | scripts/image-uploader.js:192-277 | the loop makes at most three attempts, stops at the first success, makes all three on failure, and waits 1000·2^(k−1) ms after failed attempt k when another follows |
| ImageUpload.AttemptLoop | scripts/image-uploader.js:197-274 | for any attempt outcomes, the loop returns the first success or the final error, with the attempt count and the waits |
| ImageCache.LookupAfterWrite | scripts/image-uploader.js:64-102 | a written entry is served back for the next 24 hours, and never after |
| ImageCache.WriteKeepsOthers | scripts/image-uploader.js:87-102 | a write changes the lookup of no URL with a different key |
| ImageCache.LookupFreshEarlier | scripts/image-uploader.js:72-77 | an entry fresh now was fresh, with the same URL, at every earlier moment |
| ImageCache.WriteStamped | scripts/image-uploader.js:91-98 | cache files written by cacheImageUrl keep their recorded timestamp equal to their modification time |
| ImageCache.SweepExact | scripts/image-uploader.js:365-390 | the clean-up deletes exactly the `.json` files modified more than 7 days ago, and leaves every other file as it was |
| ImageCache.SweepIdempotent | scripts/image-uploader.js:365-390 | a second clean-up at the same moment deletes nothing |
| ImageCache.SweepKeepsServedEntries | scripts/image-uploader.js:365-390 | the clean-up never removes an entry the cache would still serve (24 hours is within 7 days) |
| ImageCache.DownloadOkIff | scripts/image-uploader.js:105-151 | a download succeeds exactly for an ok response whose content type starts with "image/"; every failure message starts with "图片下载" |
| ImageCache.UploadedUrlNonEmpty | scripts/image-uploader.js:257-260 | a successful upload never yields the empty URL |
| ImageCache.ProcessImageOutcomes | scripts/image-uploader.js:280-317 | processImage either returns a fresh cached URL and leaves the cache alone, or returns the original URL and leaves the cache alone, or returns a new non-empty URL and writes it to the cache |
| ImageCache.ProcessImageTwice | scripts/image-uploader.js:280-317 | processing the same image again within 24 hours of an upload returns the same URL, from the cache, with no change |
| ImageCache.FallbackOnFailure | scripts/image-uploader.js:310-316 | a failed download or upload returns the original URL and leaves the cache untouched |
| ImageCache.ProcessAllResults | scripts/image-uploader.js:329-348 | every batch result names its own input, in order, and reports success |
| ImageCache.ConcatChunks | scripts/image-uploader.js:326-327 | the batches of three cover the input in order, each holding 1 to 3 images, ⌈n/3⌉ of them |
| ImageCache.ImageUploader.constructor | scripts/image-uploader.js:9-23 | the uploader starts on the given cache directory |
| ImageCache.ImageUploader.CacheImageUrl | scripts/image-uploader.js:87-102 | the directory afterwards is the old one with the URL's entry replaced by one stamped now |
| ImageCache.ImageUploader.ProcessImage | scripts/image-uploader.js:280-317 | the URL returned and the directory left are those of the processImage specification |
| ImageCache.ImageUploader.ProcessBatchImages | scripts/image-uploader.js:320-362 | the results and the directory are those of processing the images one after another in input order, with a 1000 ms pause between batches of three |
| ImageCache.ImageUploader.ProcessBatch | scripts/image-uploader.js:329-348 | one batch extends the results and the directory by the images of that batch, in order |
| ImageCache.ImageUploader.CleanExpiredCache | scripts/image-uploader.js:365-390 | the directory afterwards is the sweep of the old one, and the count is the number of files deleted |
| Slug.SlugShape | scripts/sync-notion.js:107-113 | a slug has at most 50 characters, each one allowed by the pattern or a dash. It has no double dash and no leading dash, and its kept characters are a prefix of the lower-cased title's |
| Slug.SlugWhole | scripts/sync-notion.js:107-113 | without truncation the slug ends in no dash and keeps every allowed character of the lower-cased title |
| Slug.CollapseShape | scripts/sync-notion.js:110 | the replace leaves allowed characters and single dashes, empty exactly for an empty input, with the same allowed characters |
| Slug.CollapseFixed | scripts/sync-notion.js:110 | a string already in slug form is unchanged by the replace |
| Slug.StripDashesShape | scripts/sync-notion.js:111 | the dash strip keeps a slice without a dash at either end and loses no allowed character |
| Slug.StripBounds | scripts/sync-notion.js:111 | the strip removes at most one leading and one trailing dash |
| Slug.TruncationLeavesDash | scripts/sync-notion.js:112 | the cut at 50 characters can leave a trailing dash (49 allowed characters, a space, one more) |
| Slug.SlugOfSlug | scripts/sync-notion.js:107-113 | applying generateSlug to a slug only drops a trailing dash left by the cut |
| Slug.LowerKept | scripts/sync-notion.js:109 | lower-casing leaves a string without ASCII capitals unchanged |
| JsString.TrimSpec | scripts/sync-notion.js:67 | trim keeps a contiguous slice, drops only white space around it, leaves neither end on white space, and is empty exactly for a blank string |
| JsString.ContainsIff | scripts/notion-client.js:116 | `includes` holds exactly when the text occurs at some index |
| JsString.JoinSplit | scripts/notion-client.js:298-300 | joining the pieces of a split at the same separator gives the text back |
| JsString.SplitJoin | scripts/sync-notion.js:81 | splitting a join of separator-free pieces gives the pieces back |
| JsString.NatToStringRoundTrip | scripts/sync-notion.js:155 | the decimal rendering of a count reads back as the count, without a leading zero |
| JsNumber.LeTotalOrder | docs/.vitepress/utils.ts:75-76 | on non-NaN values the comparison is a total order and `>` is its strict complement |
| JsNumber.DigitsToNumber | docs/.vitepress/utils.ts:73-74 | a string of decimal digits, leading zeros included, converts to its decimal value |
| JsNumber.NatRoundTrip | docs/.vitepress/utils.ts:73-74 | `Number(String(n)) == n` for every non-negative integer |
| JsNumber.BlankIsZero | docs/.vitepress/utils.ts:73-74 | every string made only of white space, the empty string included, converts to 0 |
| JsNumber.WordIsNaN | docs/.vitepress/utils.ts:73-74 | a word such as "Intro" converts to NaN |
| JsNumber.TwoPointsIsNaN | docs/.vitepress/utils.ts:73-74 | "1.2.3" converts to NaN |
| JsNumber.SignedHexIsNaN | docs/.vitepress/utils.ts:73-74 | a signed hexadecimal literal converts to NaN |
| JsNumber.HexLiteral | docs/.vitepress/utils.ts:73-74 | "0x1F" converts to 31 |
| JsNumber.NegativeInfinityLiteral | docs/.vitepress/utils.ts:73-74 | "-Infinity" converts to −∞ |
| JsNumber.ExponentLiteral | docs/.vitepress/utils.ts:73-74 | "1.5e1" converts to 15 |
| NumericSort.BubbleSortedSpec | docs/.vitepress/utils.ts:63-84 | the sorted entries are a permutation of the input, each stretch of numeric keys is in non-decreasing order, and the recorded rearrangement fixes NaN-keyed entries and keeps equal keys in order |
| NumericSort.NaNEntriesStay | docs/.vitepress/utils.ts:75 | an entry whose key is NaN is at the same index before and after |
| NumericSort.EqualKeysKeepOrder | docs/.vitepress/utils.ts:76 | the sort is stable: entries with equal keys keep their original order |
| NumericSort.TracksSwap | docs/.vitepress/utils.ts:76-80 | swapping an out-of-order numeric pair keeps the record of where each entry came from |
| NumericSort.KeepStep | docs/.vitepress/utils.ts:71-81 | a comparison that leaves the pair keeps the pass invariant, one position further on |
| NumericSort.SwapStep | docs/.vitepress/utils.ts:71-81 | a comparison that swaps the pair keeps the pass invariant, one position further on |
| NumericSort.SortedAtEnd | docs/.vitepress/utils.ts:69-83 | after n−1 passes every numeric stretch is sorted |
| NumericSort.PassProgress | docs/.vitepress/utils.ts:70-82 | a whole inner pass keeps the invariant up to its last position |
| NumericSort.PassesProgress | docs/.vitepress/utils.ts:69-83 | all passes keep the invariant, ending after n−1 of them |
| NumericSort.BubbleSort | docs/.vitepress/utils.ts:64-84 | a null or empty array is left alone. Otherwise the array ends as the bubble-sorted input: a permutation of it, each numeric stretch sorted, NaN-keyed entries in place, equal keys in order |
| NumericSort.Sort | docs/.vitepress/utils.ts:68-83 | the two loops leave the array as the bubble-sorted input |
| NumericSort.Pass | docs/.vitepress/utils.ts:70-82 | pass i compares the pairs (j−1, j) for j = 1 … n−i |
| NumericSort.CompareNeighbours | docs/.vitepress/utils.ts:71-81 | a[j−1] and a[j] are swapped exactly when both keys are numbers and the first is greater |
| Helper.IsDuplicateIff | scripts/helper.js:2-4 | isDuplicate holds exactly when a page entry with that text and link is in the list |
| Helper.FindCategory | scripts/helper.js:24 | the first entry with that text and no link, or none |
| Helper.OrganizeData | scripts/helper.js:6-46 | the loop builds the sidebar of the organizeData specification, or throws when the walk meets a page entry with an empty link |
| Helper.AddToTop | scripts/helper.js:18-35 | the walk down category[1..] and the leaf push are the insertion of the page at that path |
| Helper.CollectFails | scripts/helper.js:9-36 | once an article throws, the whole of organizeData throws |
| Helper.SkipsUncategorised | scripts/helper.js:11 | an article without categories leaves the sidebar unchanged |
| Helper.CollectTops | scripts/helper.js:14-17 | the top categories are the distinct first categories, in first-seen order, none collapsed |
| Helper.SidebarKeys | scripts/helper.js:39-45 | the sidebar has one key `/<top>/` per distinct top category, in order, each with a one-element list |
| Helper.DistinctUnique | scripts/helper.js:15-17 | the distinct list never repeats an element and holds exactly the elements seen |
| Helper.WalkInto | scripts/helper.js:24-29 | when the category exists, the cursor enters that group |
| Helper.WalkNew | scripts/helper.js:25-28 | when the category is missing, an empty group is appended and the cursor enters it |
| Helper.GraftThenRead | scripts/helper.js:27-34 | a push through the cursor changes exactly the list it points at |
| Helper.InsertPlaces | scripts/helper.js:20-35 | the page ends up in the list reached through its category path |
| Helper.InsertKeeps | scripts/helper.js:20-35 | inserting a page loses no page already placed |
| Helper.Siblings | scripts/helper.js:24-34 | an insertion appends at most one entry and changes existing ones only as the same group |
| Helper.InsertNoDuplicates | scripts/helper.js:33-35 | no list ever holds the same page twice |
| Helper.InsertTotal | scripts/helper.js:24-28 | when every page entry has a non-empty link the walk never throws |
| Helper.AddArticleSteps | scripts/helper.js:9-36 | one article keeps the sidebar well-formed, places the article, and keeps every earlier article placed |
| Helper.CollectPlacesAll | scripts/helper.js:6-46 | when every slug is non-empty organizeData never throws and places every article under its top category at its category path |
| Helper.OrganizeNav | scripts/helper.js:48-83 | the loop builds the nav of the organizeNav specification |
| Helper.NavLinks | scripts/helper.js:72-79 | every nav entry links to `/<level1>/` and matches `/<level1>/`, whatever its second level |
| Helper.NavLevel1 | scripts/helper.js:52-69 | one nav group per distinct first-level category of the articles with at least two levels, in first-seen order |
| Helper.NavLevel2 | scripts/helper.js:52-66 | each nav group's entries are the distinct second levels seen with its first level, in first-seen order |
| Helper.NavMapUnique | scripts/helper.js:60-62 | no two nav groups share a first level |
| Helper.AddNavEntry | scripts/helper.js:52-66 | one article adds its second level to its first level's set, or a new one at the end, and changes nothing else |
| SyncNotion.PathJoinSegments | scripts/sync-notion.js:81-85 | a joined path cuts back at "/" into exactly the non-empty segments of its parts |
| SyncNotion.SegmentsPlain | scripts/sync-notion.js:81-85 | every segment path.join keeps is non-empty and free of "/" |
| SyncNotion.DescriptionShape | scripts/sync-notion.js:67 | the description has at most 100 characters, no line break and white space at neither end, and is a slice of the cut text |
| SyncNotion.DescriptionStartsWithHeading | scripts/sync-notion.js:58-67 | a document's description starts with the heading marker of its title |
| SyncNotion.SlugIsDocPath | scripts/sync-notion.js:79-94 | with plain category levels and title, the slug is "/" and the document's path below docs/ |
| SyncNotion.UncategorisedSlug | scripts/sync-notion.js:79-94 | a page without a category is written to `<title>.md` while its slug is `//<title>.md` |
| SyncNotion.SomesFull | scripts/sync-notion.js:28-33 | the collected list is as long as the outcomes only when none is null, and then lists them all in order |
| SyncNotion.ArticlesOfPages | scripts/sync-notion.js:26-33 | no more articles than pages, one per page exactly when every page's content loads, and then in page order |
| SyncNotion.ArticleSlugsNonEmpty | scripts/sync-notion.js:92-99 | every collected article has a non-empty slug |
| SyncNotion.GroupsByCategory | scripts/sync-notion.js:118-125 | the groups are the distinct first categories in first-seen order, each holding its articles in order |
| SyncNotion.GroupsCoverAll | scripts/sync-notion.js:118-125 | every article is counted in exactly one group |
| SyncNotion.CategoryPageLines | scripts/sync-notion.js:129-131 | a category page reads as its heading, a blank line and one link per article |
| SyncNotion.FeatureCounts | scripts/sync-notion.js:153-155 | each feature card of the landing page names its category, links to it and counts its articles |
| SyncNotion.LatestListLines | scripts/sync-notion.js:160-162 | the latest-articles list has min(10, n) lines, line k being the link of article k and its date |
| SyncNotion.IndexPagesWritten | scripts/sync-notion.js:115-165 | after generateIndex every category with a plain name has its page at `<name>/index.md`, and `index.md` is the landing page |
| SyncNotion.DistinctIndexPaths | scripts/sync-notion.js:133-134 | categories with distinct plain names get distinct index paths, so no category page overwrites another |
| SyncNotion.SiteNav | scripts/sync-notion.js:196-197 | the navigation bar is the home link, then the menus of organizeNav in order |
| SyncNotion.SiteNavMenus | scripts/sync-notion.js:196-197 | after the home link come one menu per distinct first-level category, in first-seen order |
| SyncNotion.SyncSucceeds | scripts/sync-notion.js:14-47 | once the pages are listed the run never exits with 1, and it writes the landing page and the configuration |
| SyncNotion.NotionSync.constructor | scripts/sync-notion.js:8-12 | the driver starts on the given files, with no exit code |
| SyncNotion.SlugPageReadsSlugBlock | scripts/sync-notion.js:55 | a page whose slug property is set loads exactly when the listing of the slug's block does, and its record and document do not depend on the listing of its own id |
| SyncNotion.NotionSync.ProcessPage | scripts/sync-notion.js:49-105 | returns the article record, or null when the children of `slug || id` cannot be fetched; writes the document exactly when it returns a record |
| SyncNotion.NotionSync.ProcessPages | scripts/sync-notion.js:28-33 | the loop collects the articles of the pages whose content loads, in page order, and writes their documents |
| SyncNotion.NotionSync.GroupByCategory | scripts/sync-notion.js:118-125 | the forEach fills the groups of the specification |
| SyncNotion.NotionSync.WriteCategoryIndexes | scripts/sync-notion.js:128-137 | one index page per category is written, in order |
| SyncNotion.NotionSync.GenerateIndex | scripts/sync-notion.js:115-165 | the files afterwards are those of the generateIndex specification |
| SyncNotion.NotionSync.UpdateVitePressConfig | scripts/sync-notion.js:167-246 | the configuration, holding the nav and the sidebar, is written, unless organizeData throws, in which case nothing changes |
| SyncNotion.NotionSync.Sync | scripts/sync-notion.js:14-47 | when the pages cannot be listed nothing is written and the exit code is 1. Otherwise every page is processed, the index pages and the configuration are written, and the exit code is 1 only if organizeData throws |

## Left out

- **I/O, timers and logging.** These are absent. Sleeps are returned as lists of delays, and `console` output is dropped.
- **Notion API calls and the database query.**
  - `getPages` (the database query with its filter and sort) appears only as its outcome: the listed pages, or the message withRetry throws.
  - `healthCheck`, `networkDiagnostic`, `createCustomFetch` and `deleteFolder` are not part of this model.
- **Block listings are materialised.** The children of a block are given as the outcome of listing them: the blocks, or a failure. The requests to list them and their retries are modelled only by getPageContent.
- **Upload request contents are not modelled.** The form data, the `authCode` and the upload folder `<folder>/<pageId>` are absent; the reply to each attempt is a parameter.
- **Oracles.** md5, `Date.now`, `Math.random().toString(36)`, `new URL(...).hostname` and `toLocaleDateString` are parameters of the model.
- **`ImageCache.ProcessImageSpec` and `ImageCache.ImageUploader.ProcessImage` read the clock once.** processImage reads it three times: `Date.now()` in getCachedImageUrl, `Date.now()` in generateFileName, and `new Date()` in cacheImageUrl. The last two come after the download and the upload, which can take up to the 30 s timeout plus 1 s and 2 s of upload back-off. The model uses the lookup time `now` for all three, so the cache entry is stamped, and the file named, with the lookup time.
- **`NotionRetry.Error` always carries a string message.** `error.message.toLowerCase()` in isRetryableError throws a TypeError when a thrown value has no string message. That TypeError escapes withRetry's `catch` with no retry and no wrapping. The model does not represent such thrown values.
- **Block listings are keyed by block id.** getPageContent lists the children of `properties.slug || pageId`, so a page whose slug property is set is rendered from the children of the block the slug names. The model gives the listing of every block id and reads the one `NotionPagination.ListingTarget` picks. A slug that names no block is just another id whose listing fails or is empty, as that listing says.
- **Unmodelled library code.** The JSON parsing of replies and cache files, `JSON.stringify` of the configuration, and gray-matter's YAML stringify are not modelled:
  - replies and cache files are given as parsed values;
  - a written document is the pair of its frontmatter record and its Markdown;
  - the configuration file is the pair of its nav and its sidebar.
- **JavaScript object key order** is modelled as insertion order. ECMAScript's rule that integer-like keys come first is not modelled, and neither are keys that collide with `Object.prototype` members.
- **Character handling.**
  - `toLowerCase` is modelled on ASCII letters only.
  - `substring(0, 100)` counts characters, not UTF-16 code units.
  - `trim` uses ECMAScript's white-space set.
- **`Number()`** is modelled over exact reals, not IEEE doubles, so rounding, `-0` and overflow to Infinity are absent.
- **`path.join` and `path.relative`.** `path.join` is modelled on relative, already-normalised parts, so `.` and `..` are not resolved. `path.relative(docsDir, filePath)` is that relative path itself.
- **Directory creation and write failures.** `ensureDirectories`, `ensureCacheDir` and the `mkdirSync` calls are absent: the file map has no directories. A failing `writeFileSync` is not modelled. Each of cacheImageUrl and processPage catches it, and processPage then returns null.
- **Concurrency.** `Promise.all` on a batch of three is modelled as one image after another in input order. Concurrent access to the shared cache directory is not modelled.
- **A timestamp beyond the model.** An unparsable cache-file timestamp (`new Date(...)` giving NaN) is modelled as an entry that is never served.
- **`ImageCache.ImageUploader.CleanExpiredCache` returns its count.** The source only logs the count; the model returns it.
- **Not modelled at all.** `getCacheStats`, `formatBytes`, `deepReadDirSync` and the watcher script are not part of this model.
- **`ProcessPage` computes the slug and never reads it.** It is computed exactly as the source does but is otherwise unused, so no property states anything about it.
- **Frameworks run outside the model.** The stand-alone `new NotionSync().sync()` call at the end of `scripts/sync-notion.js` and the VitePress build are not modelled.
