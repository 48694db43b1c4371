/** The cursor-pagination loop of `getPageContent` in scripts/notion-client.js. The remote
    block listing is a finite sequence of pages; the opaque cursor is the index of the next
    page, and `has_more` holds exactly when another page follows. Each page request goes
    through withRetry and fails, attempt by attempt, as its fault script says. */
module NotionPagination {
  import opened Wrappers
  import opened JsString
  import opened NotionRetry

  /** Page index k holds pages[k]; an empty listing still answers one empty page.
      faults[k] lists the errors the first attempts at page k raise (none when absent). */
  datatype Listing<T> = Listing(pages: seq<seq<T>>, faults: seq<seq<Error>>)

  /** One response of blocks.children.list. */
  datatype Page<T> = Page(results: seq<T>, hasMore: bool)

  /** The delay getPageContent sleeps between two page requests. */
  const PageDelay: nat := 400

  function NumPages<T>(l: Listing<T>): nat {
    if |l.pages| == 0 then 1 else |l.pages|
  }

  function PageAt<T>(l: Listing<T>, k: nat): Page<T> {
    Page(if k < |l.pages| then l.pages[k] else [], k + 1 < |l.pages|)
  }

  function FaultsAt<T>(l: Listing<T>, k: nat): seq<Error> {
    if k < |l.faults| then l.faults[k] else []
  }

  /** All pages' blocks, in page order. */
  function Flatten<T>(pages: seq<seq<T>>): seq<T> {
    if |pages| == 0 then [] else Flatten(pages[..|pages| - 1]) + pages[|pages| - 1]
  }

  /** The block whose children are listed: `properties.slug || pageId`. A page whose slug
      property is set has the children of the block that slug names listed, not its own. */
  function ListingTarget(pageId: string, slug: string): (target: string)
    ensures slug != "" ==> target == slug
    ensures slug == "" ==> target == pageId
    ensures target == "" <==> slug == "" && pageId == ""
  {
    if slug != "" then slug else pageId
  }

  /** The context label of each page request: the first 8 characters of the page id. */
  function PageContext(pageId: string): string {
    "获取页面内容 " + Take(pageId, 8)
  }

  function Count(s: seq<nat>, x: nat): nat {
    if |s| == 0 then 0 else Count(s[..|s| - 1], x) + (if s[|s| - 1] == x then 1 else 0)
  }

  lemma {:induction false} CountAppend(a: seq<nat>, b: seq<nat>, x: nat)
    ensures Count(a + b, x) == Count(a, x) + Count(b, x)
    decreases |b|
  {
    if |b| == 0 {
      assert a + b == a;
    } else {
      CountAppend(a, b[..|b| - 1], x);
      assert (a + b)[..|a + b| - 1] == a + b[..|b| - 1];
    }
  }

  /** A retry delay is never the page delay. */
  lemma {:induction false} RetryDelaysAreNotPageDelays(ds: seq<nat>)
    requires forall k :: 0 <= k < |ds| ==> ds[k] == BackoffDelay(k + 1)
    ensures Count(ds, PageDelay) == 0
  {
    if |ds| > 0 {
      RetryDelaysAreNotPageDelays(ds[..|ds| - 1]);
      var last := |ds|;
      if last >= 5 {
        BackoffCapped(last);
      } else {
        BackoffSchedule();
      }
    }
  }

  /** getPageContent: `listings` gives the listing of every block id, and the one read is that
      of ListingTarget(pageId, slug). On success the blocks of every page, concatenated in page
      order, with one 400 ms pause between consecutive pages; it fails exactly when the request
      for some page fails under withRetry, and then with withRetry's message for the first such
      page. */
  method GetPageContent<T>(pageId: string, slug: string, listings: string -> Listing<T>)
    returns (r: Result<seq<T>, string>, delays: seq<nat>)
    ensures var l := listings(ListingTarget(pageId, slug));
      r.Ok? <==> forall k :: 0 <= k < NumPages(l) ==> RetrySucceeds(FaultsAt(l, k))
    ensures var l := listings(ListingTarget(pageId, slug));
      r.Ok? ==> r.value == Flatten(l.pages)
    ensures var l := listings(ListingTarget(pageId, slug));
      r.Ok? ==> Count(delays, PageDelay) == NumPages(l) - 1
    ensures var l := listings(ListingTarget(pageId, slug));
      r.Err? ==> exists k ::
        && 0 <= k < NumPages(l)
        && !RetrySucceeds(FaultsAt(l, k))
        && (forall j :: 0 <= j < k ==> RetrySucceeds(FaultsAt(l, j)))
        && r.error == GiveUpMessage(PageContext(pageId), FaultsAt(l, k)[FirstFailure(FaultsAt(l, k))])
  {
    var l := listings(ListingTarget(pageId, slug));
    var allBlocks: seq<T> := [];
    var hasMore := true;
    var k: nat := 0;
    delays := [];
    while hasMore
      invariant k <= NumPages(l)
      invariant hasMore <==> k < NumPages(l)
      invariant forall j :: 0 <= j < k ==> RetrySucceeds(FaultsAt(l, j))
      invariant allBlocks == Flatten(l.pages[..Min(k, |l.pages|)])
      invariant Count(delays, PageDelay) == if k == 0 then 0 else k - 1
      decreases NumPages(l) - k
    {
      var pause: seq<nat> := if k > 0 then [PageDelay] else [];
      var op := Operation(FaultsAt(l, k), PageAt(l, k));
      var response, calls, retryDelays := WithRetry(op, PageContext(pageId));
      DelayStep(delays, pause, retryDelays, k);
      delays := delays + pause + retryDelays;
      if response.Err? {
        GiveUpIndex(op, calls);
        r := Err(response.error);
        FailedAt(l, k, pageId, r);
        return;
      }
      FlattenStep(l.pages, k);
      allBlocks := allBlocks + response.value.results;
      hasMore := response.value.hasMore;
      k := k + 1;
    }
    assert l.pages[..|l.pages|] == l.pages;
    r := Ok(allBlocks);
  }

  /** The listing stops at the first page whose retries give up, with that page's message. */
  lemma FailedAt<T>(l: Listing<T>, k: nat, pageId: string, r: Result<seq<T>, string>)
    requires k < NumPages(l)
    requires forall j :: 0 <= j < k ==> RetrySucceeds(FaultsAt(l, j))
    requires !RetrySucceeds(FaultsAt(l, k))
    requires r == Err(GiveUpMessage(PageContext(pageId), FaultsAt(l, k)[FirstFailure(FaultsAt(l, k))]))
    ensures !(forall j :: 0 <= j < NumPages(l) ==> RetrySucceeds(FaultsAt(l, j)))
    ensures exists k ::
      && 0 <= k < NumPages(l)
      && !RetrySucceeds(FaultsAt(l, k))
      && (forall j :: 0 <= j < k ==> RetrySucceeds(FaultsAt(l, j)))
      && r.error == GiveUpMessage(PageContext(pageId), FaultsAt(l, k)[FirstFailure(FaultsAt(l, k))])
  {
  }

  function Min(a: nat, b: nat): nat {
    if a < b then a else b
  }

  lemma FlattenStep<T>(pages: seq<seq<T>>, k: nat)
    ensures Flatten(pages[..Min(k + 1, |pages|)])
      == Flatten(pages[..Min(k, |pages|)]) + (if k < |pages| then pages[k] else [])
  {
    if k < |pages| {
      assert pages[..k + 1][..k] == pages[..k];
    }
  }

  /** The delays of one page request: the page pause (after the first page) and withRetry's
      backoff delays, which never equal the page pause. */
  lemma DelayStep(delays: seq<nat>, pause: seq<nat>, retryDelays: seq<nat>, k: nat)
    requires Count(delays, PageDelay) == if k == 0 then 0 else k - 1
    requires pause == if k > 0 then [PageDelay] else []
    requires forall j :: 0 <= j < |retryDelays| ==> retryDelays[j] == BackoffDelay(j + 1)
    ensures Count(delays + pause + retryDelays, PageDelay) == k
  {
    CountAppend(delays, pause, PageDelay);
    CountAppend(delays + pause, retryDelays, PageDelay);
    RetryDelaysAreNotPageDelays(retryDelays);
    if k > 0 {
      assert Count(pause, PageDelay) == Count([], PageDelay) + 1 by {
        assert pause[..0] == [];
      }
    }
  }

  /** withRetry gave up: wrap its contract in the terms of FirstFailure. */
  lemma GiveUpIndex<T>(op: Operation<T>, calls: nat)
    requires 1 <= calls <= MaxRetries
    requires forall j :: 0 <= j < calls - 1 ==> Call(op, j).Err? && IsRetryable(Call(op, j).error)
    requires calls - 1 < |op.failures|
    requires calls == MaxRetries || !IsRetryable(op.failures[calls - 1])
    ensures !RetrySucceeds(op.failures)
    ensures FirstFailure(op.failures) == calls - 1
  {
    forall j | 0 <= j < calls - 1
      ensures IsRetryable(op.failures[j])
    {
      assert Call(op, j).Err?;
    }
    FirstFailureIsTheStop(op.failures, calls);
  }

  /** The index of the call at which withRetry gives up on these failures: the first
      non-retryable one, or the last allowed attempt. */
  function FirstFailure(failures: seq<Error>): nat
    requires !RetrySucceeds(failures)
    ensures FirstFailure(failures) < |failures| && FirstFailure(failures) < MaxRetries
  {
    FirstStop(failures, 0)
  }

  function FirstStop(failures: seq<Error>, j: nat): (i: nat)
    requires !RetrySucceeds(failures)
    requires j < |failures| && j < MaxRetries
    requires forall m :: 0 <= m < j ==> IsRetryable(failures[m])
    ensures j <= i < |failures| && i < MaxRetries
    ensures !IsRetryable(failures[i]) || i == MaxRetries - 1
    ensures forall m :: 0 <= m < i ==> IsRetryable(failures[m])
    decreases MaxRetries - j
  {
    if !IsRetryable(failures[j]) || j == MaxRetries - 1 then j
    else FirstStop(failures, j + 1)
  }

  lemma FirstFailureIsTheStop(failures: seq<Error>, calls: nat)
    requires 1 <= calls <= MaxRetries && calls - 1 < |failures|
    requires forall j :: 0 <= j < calls - 1 ==> IsRetryable(failures[j])
    requires calls == MaxRetries || !IsRetryable(failures[calls - 1])
    ensures !RetrySucceeds(failures)
    ensures FirstFailure(failures) == calls - 1
  {
  }
}
