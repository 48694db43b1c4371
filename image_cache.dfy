/** The image cache and the processing pipeline of scripts/image-uploader.js. The cache
    directory is a map from file names to files; an entry lives in `<md5(url)>.json`. The
    hash, the clock, the random suffix and the network are parameters. */
module ImageCache {
  import opened Wrappers
  import opened JsString
  import opened ImageNaming
  import opened ImageUpload

  /** What `JSON.parse` of a cache file gives: a record (whose fields may be missing or, for
      the timestamp, not a valid date) or nothing usable. */
  datatype CacheContent =
    | Record(originalUrl: string, uploadedUrl: Option<string>, timestamp: Option<int>)
    | Unparsable

  datatype CacheFile = CacheFile(content: CacheContent, mtime: int)

  type Directory = map<string, CacheFile>

  /** 24 hours and 7 days, in milliseconds. */
  const FreshFor: int := 24 * 60 * 60 * 1000
  const KeepFor: int := 7 * 24 * 60 * 60 * 1000

  /** `${md5(url)}.json`. */
  function CacheFileName(md5: string -> string, url: string): string {
    md5(url) + ".json"
  }

  /** getCachedImageUrl: the stored upload URL when the entry exists, parses, carries a valid
      timestamp less than 24 hours old and has an upload URL. */
  function Lookup(dir: Directory, md5: string -> string, url: string, now: int): Option<string> {
    var name := CacheFileName(md5, url);
    if name in dir && dir[name].content.Record? then
      var c := dir[name].content;
      if c.timestamp.Some? && now - c.timestamp.value < FreshFor then c.uploadedUrl else None
    else None
  }

  /** cacheImageUrl: the entry for the URL is replaced by one stamped `now`. */
  function Write(dir: Directory, md5: string -> string, url: string, uploaded: string, now: int): Directory {
    dir[CacheFileName(md5, url) := CacheFile(Record(url, Some(uploaded), Some(now)), now)]
  }

  /** A file cleanExpiredCache deletes: a `.json` file last modified more than 7 days ago. */
  predicate Expired(name: string, file: CacheFile, now: int) {
    EndsWith(name, ".json") && now - file.mtime > KeepFor
  }

  /** The directory after cleanExpiredCache. */
  function Sweep(dir: Directory, now: int): Directory {
    map name | name in dir && !Expired(name, dir[name], now) :: dir[name]
  }

  /** A written entry is served back for the next 24 hours, and only then. */
  lemma LookupAfterWrite(dir: Directory, md5: string -> string, url: string, uploaded: string, written: int, now: int)
    ensures Lookup(Write(dir, md5, url, uploaded, written), md5, url, now)
      == if now - written < FreshFor then Some(uploaded) else None
  {
  }

  /** A write touches only the entry of its own URL: another URL whose key differs reads
      what it read before. */
  lemma WriteKeepsOthers(dir: Directory, md5: string -> string, url: string, uploaded: string, written: int,
                         other: string, now: int)
    requires md5(other) != md5(url)
    ensures Lookup(Write(dir, md5, url, uploaded, written), md5, other, now) == Lookup(dir, md5, other, now)
  {
    var mine, theirs := CacheFileName(md5, url), CacheFileName(md5, other);
    assert mine[..|mine| - 5] != theirs[..|theirs| - 5];
  }

  /** An entry that is fresh now was fresh at every earlier moment. */
  lemma LookupFreshEarlier(dir: Directory, md5: string -> string, url: string, earlier: int, now: int)
    requires earlier <= now
    requires Lookup(dir, md5, url, now).Some?
    ensures Lookup(dir, md5, url, earlier) == Lookup(dir, md5, url, now)
  {
  }

  /** Every file whose modification time equals the timestamp it records, as cacheImageUrl
      writes them. */
  predicate Stamped(dir: Directory) {
    forall name :: name in dir && dir[name].content.Record? && dir[name].content.timestamp.Some?
      ==> dir[name].content.timestamp.value == dir[name].mtime
  }

  lemma WriteStamped(dir: Directory, md5: string -> string, url: string, uploaded: string, now: int)
    requires Stamped(dir)
    ensures Stamped(Write(dir, md5, url, uploaded, now))
  {
  }

  /** cleanExpiredCache deletes exactly the expired `.json` files and leaves every other
      file as it was. */
  lemma SweepExact(dir: Directory, now: int)
    ensures Sweep(dir, now).Keys <= dir.Keys
    ensures forall name :: name in dir ==> (name !in Sweep(dir, now) <==> Expired(name, dir[name], now))
    ensures forall name :: name in Sweep(dir, now) ==> Sweep(dir, now)[name] == dir[name]
    ensures forall name :: name in dir && !EndsWith(name, ".json") ==> name in Sweep(dir, now)
  {
  }

  /** A second clean-up at the same moment deletes nothing. */
  lemma SweepIdempotent(dir: Directory, now: int)
    ensures Sweep(Sweep(dir, now), now) == Sweep(dir, now)
  {
  }

  /** On a directory written by cacheImageUrl, the clean-up never removes an entry that
      getCachedImageUrl would still serve: 24 hours of freshness lie within the 7 days. */
  lemma SweepKeepsServedEntries(dir: Directory, md5: string -> string, url: string, now: int)
    requires Stamped(dir)
    ensures Lookup(Sweep(dir, now), md5, url, now) == Lookup(dir, md5, url, now)
  {
    var name := CacheFileName(md5, url);
    if Lookup(dir, md5, url, now).Some? {
      assert !Expired(name, dir[name], now);
    }
  }

  // ---------------------------------------------------------------- download

  /** One reply of the image host: a timeout, a network failure, or a response. */
  datatype DownloadReply =
    | Timeout
    | FetchError(message: string)
    | HttpResponse(ok: bool, status: nat, statusText: string, contentType: Option<string>)

  /** downloadImage: the content type of a valid image, or the message it throws. The
      checks inside the try are re-thrown under "图片下载失败: ". */
  function Download(reply: DownloadReply): Result<string, string> {
    match reply
      case Timeout => Err("图片下载超时")
      case FetchError(m) => Err("图片下载失败: " + m)
      case HttpResponse(ok, status, statusText, contentType) =>
        if !ok then Err("图片下载失败: 下载失败: " + NatToString(status) + " " + statusText)
        else if contentType.None? || !StartsWith(contentType.value, "image/") then
          Err("图片下载失败: 不是有效的图片格式: " + (if contentType.Some? then contentType.value else "null"))
        else Ok(contentType.value)
  }

  // ---------------------------------------------------------------- processImage

  /** The URL processImage returns and the cache directory it leaves. */
  datatype Processed = Processed(url: string, dir: Directory)

  /** processImage: a fresh, non-empty cached URL wins; otherwise download, name, upload and
      cache; any failure falls back to the original URL and leaves the cache alone. */
  function ProcessImageSpec(dir: Directory, md5: string -> string, baseUrl: string, url: string, now: int,
                            random: string, download: DownloadReply, upload: (string, nat) -> UploadReply): Processed
  {
    var cached := Lookup(dir, md5, url, now);
    if cached.Some? && cached.value != "" then Processed(cached.value, dir)
    else
      match Download(download)
        case Err(_) => Processed(url, dir)
        case Ok(contentType) =>
          var fileName := GenerateFileName(if now < 0 then 0 else now, random, contentType, url);
          match UploadResult(fileName, upload, baseUrl)
            case Err(_) => Processed(url, dir)
            case Ok(uploaded) => Processed(uploaded, Write(dir, md5, url, uploaded, now))
  }

  /** A downloaded image: the reply is a successful response whose content type starts
      with "image/". */
  lemma DownloadOkIff(reply: DownloadReply)
    ensures Download(reply).Ok?
      <==> reply.HttpResponse? && reply.ok && reply.contentType.Some? && StartsWith(reply.contentType.value, "image/")
    ensures Download(reply).Ok? ==> Download(reply).value == reply.contentType.value
    ensures Download(reply).Err? ==> StartsWith(Download(reply).error, "图片下载")
  {
  }

  /** A successful upload never yields the empty URL. */
  lemma UploadedUrlNonEmpty(fileName: string, replies: (string, nat) -> UploadReply, baseUrl: string)
    requires UploadResult(fileName, replies, baseUrl).Ok?
    ensures UploadResult(fileName, replies, baseUrl).value != ""
  {
    UploadResultIsFirstSuccess(fileName, replies, baseUrl);
    var k :| && 0 <= k < MaxAttempts
             && Attempt(replies(fileName, k), baseUrl) == UploadResult(fileName, replies, baseUrl)
             && forall j :: 0 <= j < k ==> Attempt(replies(fileName, j), baseUrl).Err?;
    SuccessShape(replies(fileName, k), baseUrl);
  }

  /** processImage has three outcomes: the cached URL with the cache untouched, the original
      URL with the cache untouched, or a fresh upload that is then cached. */
  lemma ProcessImageOutcomes(dir: Directory, md5: string -> string, baseUrl: string, url: string, now: int,
                             random: string, download: DownloadReply, upload: (string, nat) -> UploadReply)
    ensures var p := ProcessImageSpec(dir, md5, baseUrl, url, now, random, download, upload);
      || (Lookup(dir, md5, url, now) == Some(p.url) && p.url != "" && p.dir == dir)
      || (p.url == url && p.dir == dir)
      || (p.url != "" && p.dir == Write(dir, md5, url, p.url, now))
  {
    var p := ProcessImageSpec(dir, md5, baseUrl, url, now, random, download, upload);
    var cached := Lookup(dir, md5, url, now);
    if !(cached.Some? && cached.value != "") && Download(download).Ok? {
      var fileName := GenerateFileName(if now < 0 then 0 else now, random, Download(download).value, url);
      if UploadResult(fileName, upload, baseUrl).Ok? {
        UploadedUrlNonEmpty(fileName, upload, baseUrl);
      }
    }
  }

  /** Processing the same image again within 24 hours returns the same URL from the cache,
      whatever the network does the second time, and writes nothing. */
  lemma ProcessImageTwice(dir: Directory, md5: string -> string, baseUrl: string, url: string, now: int,
                          random: string, download: DownloadReply, upload: (string, nat) -> UploadReply,
                          later: int, random2: string, download2: DownloadReply, upload2: (string, nat) -> UploadReply)
    requires now <= later < now + FreshFor
    ensures var first := ProcessImageSpec(dir, md5, baseUrl, url, now, random, download, upload);
      var second := ProcessImageSpec(first.dir, md5, baseUrl, url, later, random2, download2, upload2);
      first.dir != dir ==> second == first
  {
    var first := ProcessImageSpec(dir, md5, baseUrl, url, now, random, download, upload);
    ProcessImageOutcomes(dir, md5, baseUrl, url, now, random, download, upload);
    if first.dir != dir {
      LookupAfterWrite(dir, md5, url, first.url, now, later);
    }
  }

  /** A failed download or upload falls back to the original URL and leaves the cache alone. */
  lemma FallbackOnFailure(dir: Directory, md5: string -> string, baseUrl: string, url: string, now: int,
                          random: string, download: DownloadReply, upload: (string, nat) -> UploadReply)
    requires Lookup(dir, md5, url, now).None? || Lookup(dir, md5, url, now) == Some("")
    requires Download(download).Err?
      || UploadResult(GenerateFileName(if now < 0 then 0 else now, random, Download(download).value, url), upload, baseUrl).Err?
    ensures ProcessImageSpec(dir, md5, baseUrl, url, now, random, download, upload) == Processed(url, dir)
  {
  }

  /** The oracles of the i-th image of a batch. */
  datatype Env = Env(
    clock: nat -> int,
    random: nat -> string,
    download: nat -> DownloadReply,
    upload: nat -> (string, nat) -> UploadReply)

  datatype BatchResult = BatchResult(original: string, uploaded: string, success: bool)

  /** The results and the directory after processing the first |urls| images, in order. */
  datatype BatchState = BatchState(results: seq<BatchResult>, dir: Directory)

  function ProcessAll(dir: Directory, md5: string -> string, baseUrl: string, urls: seq<string>, env: Env): (s: BatchState)
    ensures |s.results| == |urls|
  {
    if |urls| == 0 then BatchState([], dir)
    else
      var n := |urls| - 1;
      var before := ProcessAll(dir, md5, baseUrl, urls[..n], env);
      var p := ProcessImageSpec(before.dir, md5, baseUrl, urls[n], env.clock(n), env.random(n),
        env.download(n), env.upload(n));
      BatchState(before.results + [BatchResult(urls[n], p.url, true)], p.dir)
  }

  lemma ProcessAllStep(dir: Directory, md5: string -> string, baseUrl: string, urls: seq<string>, j: nat, env: Env)
    requires j < |urls|
    ensures var before := ProcessAll(dir, md5, baseUrl, urls[..j], env);
      var p := ProcessImageSpec(before.dir, md5, baseUrl, urls[j], env.clock(j), env.random(j),
        env.download(j), env.upload(j));
      ProcessAll(dir, md5, baseUrl, urls[..j + 1], env)
        == BatchState(before.results + [BatchResult(urls[j], p.url, true)], p.dir)
  {
    assert urls[..j + 1][..j] == urls[..j];
  }

  /** The batches of three that processBatchImages works through. */
  function Chunks<T>(s: seq<T>): seq<seq<T>>
    decreases |s|
  {
    if |s| <= 3 then (if |s| == 0 then [] else [s]) else [s[..3]] + Chunks(s[3..])
  }

  function Concat<T>(chunks: seq<seq<T>>): seq<T> {
    if |chunks| == 0 then [] else chunks[0] + Concat(chunks[1..])
  }

  /** Every result of a batch run names its own input, in order, and reports success:
      processImage never throws. */
  lemma {:induction false} ProcessAllResults(dir: Directory, md5: string -> string, baseUrl: string, urls: seq<string>, env: Env)
    ensures var s := ProcessAll(dir, md5, baseUrl, urls, env);
      forall k :: 0 <= k < |urls| ==> s.results[k].original == urls[k] && s.results[k].success
  {
    if |urls| > 0 {
      var n := |urls| - 1;
      ProcessAllResults(dir, md5, baseUrl, urls[..n], env);
    }
  }

  lemma {:induction false} ConcatChunks<T>(s: seq<T>)
    ensures Concat(Chunks(s)) == s
    ensures forall k :: 0 <= k < |Chunks(s)| ==> 1 <= |Chunks(s)[k]| <= 3
    ensures |Chunks(s)| == (|s| + 2) / 3
    decreases |s|
  {
    if |s| > 3 {
      ConcatChunks(s[3..]);
      assert Chunks(s)[1..] == Chunks(s[3..]);
      assert s[..3] + s[3..] == s;
    }
  }

  /** The pause processBatchImages takes between two batches. */
  const BatchDelay: nat := 1000

  // ---------------------------------------------------------------- the uploader

  class ImageUploader {
    var files: Directory
    const md5: string -> string
    const baseUrl: string

    constructor(md5: string -> string, baseUrl: string, files: Directory)
      ensures this.md5 == md5 && this.baseUrl == baseUrl && this.files == files
    {
      this.md5 := md5;
      this.baseUrl := baseUrl;
      this.files := files;
    }

    function GetCachedImageUrl(imageUrl: string, now: int): Option<string>
      reads this
    {
      Lookup(files, md5, imageUrl, now)
    }

    method CacheImageUrl(originalUrl: string, uploadedUrl: string, now: int)
      modifies this
      ensures files == Write(old(files), md5, originalUrl, uploadedUrl, now)
    {
      files := files[CacheFileName(md5, originalUrl) := CacheFile(Record(originalUrl, Some(uploadedUrl), Some(now)), now)];
    }

    method ProcessImage(notionImageUrl: string, now: int, random: string, download: DownloadReply,
                        upload: (string, nat) -> UploadReply)
      returns (result: string)
      modifies this
      ensures Processed(result, files)
        == ProcessImageSpec(old(files), md5, baseUrl, notionImageUrl, now, random, download, upload)
    {
      var cachedUrl := GetCachedImageUrl(notionImageUrl, now);
      if cachedUrl.Some? && cachedUrl.value != "" {
        return cachedUrl.value;
      }
      var imageData := Download(download);
      if imageData.Err? {
        return notionImageUrl;
      }
      var fileName := GenerateFileName(if now < 0 then 0 else now, random, imageData.value, notionImageUrl);
      var uploaded, _, _ := UploadToImageBed(fileName, upload, baseUrl);
      if uploaded.Err? {
        return notionImageUrl;
      }
      CacheImageUrl(notionImageUrl, uploaded.value, now);
      result := uploaded.value;
    }

    /** The images in batches of three, one after another, in input order, pausing between
        batches. */
    method ProcessBatchImages(imageUrls: seq<string>, env: Env) returns (results: seq<BatchResult>, delays: seq<nat>)
      modifies this
      ensures BatchState(results, files) == ProcessAll(old(files), md5, baseUrl, imageUrls, env)
      ensures |delays| == if |imageUrls| == 0 then 0 else |Chunks(imageUrls)| - 1
      ensures forall k :: 0 <= k < |delays| ==> delays[k] == BatchDelay
    {
      ghost var start := files;
      results := [];
      delays := [];
      var i := 0;
      while i < |imageUrls|
        invariant i <= |imageUrls|
        invariant i < |imageUrls| ==> i == 3 * |delays|
        invariant i == |imageUrls| ==> |delays| == if i == 0 then 0 else (i - 1) / 3
        invariant BatchState(results, files) == ProcessAll(start, md5, baseUrl, imageUrls[..i], env)
        invariant forall k :: 0 <= k < |delays| ==> delays[k] == BatchDelay
        decreases |imageUrls| - i
      {
        var end := if i + 3 < |imageUrls| then i + 3 else |imageUrls|;
        results := ProcessBatch(imageUrls, env, i, end, results, start);
        if i + 3 < |imageUrls| {
          delays := delays + [BatchDelay];
        }
        i := end;
      }
      assert imageUrls[..|imageUrls|] == imageUrls;
      ConcatChunks(imageUrls);
    }

    /** One batch: the images start .. end - 1, each after the previous one. */
    method ProcessBatch(imageUrls: seq<string>, env: Env, start: nat, end: nat, before: seq<BatchResult>,
                        ghost initial: Directory)
      returns (results: seq<BatchResult>)
      requires start <= end <= |imageUrls|
      requires BatchState(before, files) == ProcessAll(initial, md5, baseUrl, imageUrls[..start], env)
      modifies this
      ensures BatchState(results, files) == ProcessAll(initial, md5, baseUrl, imageUrls[..end], env)
    {
      results := before;
      var j := start;
      while j < end
        invariant start <= j <= end
        invariant BatchState(results, files) == ProcessAll(initial, md5, baseUrl, imageUrls[..j], env)
        decreases end - j
      {
        ghost var p := ProcessImageSpec(files, md5, baseUrl, imageUrls[j], env.clock(j), env.random(j),
          env.download(j), env.upload(j));
        ProcessAllStep(initial, md5, baseUrl, imageUrls, j, env);
        var uploaded := ProcessImage(imageUrls[j], env.clock(j), env.random(j), env.download(j), env.upload(j));
        assert uploaded == p.url && files == p.dir;
        results := results + [BatchResult(imageUrls[j], uploaded, true)];
        j := j + 1;
      }
    }

    /** cleanExpiredCache: deletes the expired `.json` files, whatever the order of the
        listing, and counts them. */
    method CleanExpiredCache(now: int) returns (cleanedCount: nat)
      modifies this
      ensures files == Sweep(old(files), now)
      ensures cleanedCount == |old(files).Keys - files.Keys|
    {
      ghost var initial := files;
      cleanedCount := 0;
      var pending := files.Keys;
      while pending != {}
        invariant pending <= initial.Keys
        invariant files.Keys <= initial.Keys
        invariant forall name :: name in files ==> files[name] == initial[name]
        invariant forall name :: name in initial ==>
          (name in files <==> name in pending || !Expired(name, initial[name], now))
        invariant cleanedCount == |initial.Keys - files.Keys|
        decreases pending
      {
        var file :| file in pending;
        if EndsWith(file, ".json") {
          var age := now - files[file].mtime;
          if age > KeepFor {
            assert initial.Keys - (files - {file}).Keys == (initial.Keys - files.Keys) + {file};
            files := files - {file};
            cleanedCount := cleanedCount + 1;
          }
        }
        pending := pending - {file};
      }
      assert files == Sweep(initial, now);
    }
  }
}
