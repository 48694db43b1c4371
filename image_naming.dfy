/** `getFileExtension` and `generateFileName` of scripts/image-uploader.js: the extension of
    an uploaded image comes from its content type, else from the URL's suffix, else ".jpg". */
module ImageNaming {
  import opened Wrappers
  import opened JsString

  /** The content-type table. */
  function ContentTypeExtension(contentType: string): (r: Option<string>)
    ensures r.Some? ==> IsKnownExtension(r.value) && r.value != ".jpeg"
  {
    if contentType == "image/jpeg" || contentType == "image/jpg" then Some(".jpg")
    else if contentType == "image/png" then Some(".png")
    else if contentType == "image/gif" then Some(".gif")
    else if contentType == "image/webp" then Some(".webp")
    else if contentType == "image/svg+xml" then Some(".svg")
    else if contentType == "image/bmp" then Some(".bmp")
    else None
  }

  /** The alternatives of the URL pattern, in the order the pattern tries them. */
  const UrlExtensions: seq<string> := ["jpg", "jpeg", "png", "gif", "webp", "svg", "bmp"]

  /** A dot followed by one of the pattern's alternatives. */
  predicate IsKnownExtension(x: string) {
    |x| >= 1 && x[0] == '.' && x[1..] in UrlExtensions
  }

  /** The characters `.` does not match. */
  predicate IsLineTerminator(c: char) {
    c == '\n' || c == '\r' || c == '\U{2028}' || c == '\U{2029}'
  }

  /** The tail the pattern accepts after the extension: `(?:\?.*)?$`. */
  predicate QueryTail(rest: string) {
    rest == "" || (rest[0] == '?' && forall k :: 1 <= k < |rest| ==> !IsLineTerminator(rest[k]))
  }

  /** The first alternative (from index `a` on) that matches, case-insensitively, at `at`
      and is followed by an accepted tail. */
  function AlternativeAt(s: string, at: nat, a: nat): (r: Option<string>)
    requires at <= |s|
    ensures r.Some? ==> r.value in UrlExtensions
    decreases |UrlExtensions| - a
  {
    if a >= |UrlExtensions| then None
    else
      var e := UrlExtensions[a];
      if at + |e| <= |s| && Lower(s[at..at + |e|]) == e && QueryTail(s[at + |e|..]) then Some(e)
      else AlternativeAt(s, at, a + 1)
  }

  /** What the pattern matches when it starts at index i: a dot, then an extension. */
  function MatchAt(s: string, i: nat): Option<string>
    requires i <= |s|
  {
    if i < |s| && s[i] == '.' then AlternativeAt(s, i + 1, 0) else None
  }

  /** The leftmost index from i up to n at which `at` has a value, and that value. */
  function Leftmost<T>(at: nat -> Option<T>, i: nat, n: nat): Option<T>
    decreases n - i
  {
    if i >= n then None
    else if at(i).Some? then at(i)
    else Leftmost(at, i + 1, n)
  }

  /** MatchAt as a function of the starting index. */
  function MatchesIn(s: string): nat -> Option<string> {
    (q: nat) => if q <= |s| then MatchAt(s, q) else None
  }

  /** The leftmost match from index i on. */
  function FirstMatchFrom(s: string, i: nat): Option<string>
    requires i <= |s|
  {
    Leftmost(MatchesIn(s), i, |s|)
  }

  /** `"." + urlMatch[1].toLowerCase()`, when the URL matches. */
  function UrlExtension(url: string): Option<string> {
    match FirstMatchFrom(url, 0)
      case Some(e) => Some("." + e)
      case None => None
  }

  function GetFileExtension(contentType: string, originalUrl: string): string {
    match ContentTypeExtension(contentType)
      case Some(ext) => ext
      case None =>
        match UrlExtension(originalUrl)
          case Some(ext) => ext
          case None => ".jpg"
  }

  /** `notion_<timestamp>_<random><extension>`; the clock reading and the random suffix are
      parameters. */
  function GenerateFileName(timestamp: nat, random: string, contentType: string, originalUrl: string): string {
    "notion_" + NatToString(timestamp) + "_" + random + GetFileExtension(contentType, originalUrl)
  }

  // ---------------------------------------------------------------- properties

  lemma {:induction false} LeftmostFound<T>(at: nat -> Option<T>, i: nat, n: nat) returns (p: nat)
    requires Leftmost(at, i, n).Some?
    ensures i <= p < n && at(p) == Leftmost(at, i, n)
    ensures forall q :: i <= q < p ==> at(q).None?
    decreases n - i
  {
    if at(i).Some? {
      p := i;
    } else {
      p := LeftmostFound(at, i + 1, n);
    }
  }

  lemma {:induction false} LeftmostNone<T>(at: nat -> Option<T>, i: nat, n: nat)
    ensures Leftmost(at, i, n).None? <==> forall q :: i <= q < n ==> at(q).None?
    decreases n - i
  {
    if i < n {
      LeftmostNone(at, i + 1, n);
    }
  }

  lemma {:induction false} LeftmostSkips<T>(at: nat -> Option<T>, i: nat, k: nat, n: nat)
    requires i <= k < n
    requires forall q :: i <= q < k ==> at(q).None?
    ensures Leftmost(at, i, n) == if at(k).Some? then at(k) else Leftmost(at, k + 1, n)
    decreases k - i
  {
    if i < k {
      LeftmostSkips(at, i + 1, k, n);
    }
  }

  /** The scan finds the leftmost position where the pattern matches: a match there, and
      none before it. */
  lemma FirstMatchIsLeftmost(s: string, i: nat) returns (p: nat)
    requires i <= |s| && FirstMatchFrom(s, i).Some?
    ensures i <= p < |s| && MatchAt(s, p) == FirstMatchFrom(s, i)
    ensures forall q :: i <= q < p ==> MatchAt(s, q).None?
  {
    p := LeftmostFound(MatchesIn(s), i, |s|);
    assert MatchesIn(s)(p) == MatchAt(s, p);
    forall q | i <= q < p ensures MatchAt(s, q).None? {
      assert MatchesIn(s)(q).None?;
    }
  }

  /** The scan finds nothing exactly when the pattern matches nowhere. */
  lemma NoMatchIffNowhere(s: string, i: nat)
    requires i <= |s|
    ensures FirstMatchFrom(s, i).None? <==> forall q :: i <= q <= |s| ==> MatchAt(s, q).None?
  {
    LeftmostNone(MatchesIn(s), i, |s|);
    if FirstMatchFrom(s, i).None? {
      forall q | i <= q <= |s| ensures MatchAt(s, q).None? {
        if q < |s| {
          assert MatchesIn(s)(q).None?;
        }
      }
    } else {
      var p := FirstMatchIsLeftmost(s, i);
    }
  }

  /** The extension always begins with a dot and is one of the known ones; the table decides
      before the URL does. */
  lemma ExtensionShape(contentType: string, originalUrl: string)
    ensures IsKnownExtension(GetFileExtension(contentType, originalUrl))
    ensures ContentTypeExtension(contentType).Some? ==>
      GetFileExtension(contentType, originalUrl) == ContentTypeExtension(contentType).value
    ensures ContentTypeExtension(contentType).None? && UrlExtension(originalUrl).None? ==>
      GetFileExtension(contentType, originalUrl) == ".jpg"
  {
    var m := FirstMatchFrom(originalUrl, 0);
    if ContentTypeExtension(contentType).None? && m.Some? {
      var p := FirstMatchIsLeftmost(originalUrl, 0);
      var e := m.value;
      assert e in UrlExtensions;
      assert UrlExtension(originalUrl) == Some("." + e);
      DottedIsKnown(e);
    }
  }

  lemma DottedIsKnown(e: string)
    requires e in UrlExtensions
    ensures IsKnownExtension("." + e)
  {
    assert ("." + e)[1..] == e;
  }

  /** A URL whose only dot introduces a known extension, in any letter case, optionally
      followed by a query without line breaks, yields that extension in lower case. */
  lemma SuffixOfPlainUrl(base: string, ext: string, query: string)
    requires '.' !in base
    requires Lower(ext) in UrlExtensions
    requires QueryTail(query) && '.' !in query
    ensures UrlExtension(base + "." + ext + query) == Some("." + Lower(ext))
  {
    var s := base + "." + ext + query;
    var at := |base|;
    forall q | 0 <= q < at ensures MatchAt(s, q).None? {
      assert s[q] == base[q];
    }
    assert s[at] == '.';
    assert s[at + 1..at + 1 + |ext|] == ext;
    assert s[at + 1 + |ext|..] == query;
    AlternativeMatches(s, at + 1, Lower(ext), |ext|);
    FirstMatchSkips(s, 0, at);
  }

  /** Only the alternative equal to the lowered text can match, and it does. */
  lemma AlternativeMatches(s: string, at: nat, e: string, n: nat)
    requires at + n <= |s| && Lower(s[at..at + n]) == e && e in UrlExtensions
    requires QueryTail(s[at + n..])
    ensures AlternativeAt(s, at, 0) == Some(e)
  {
    assert |e| == n;
    var k :| 0 <= k < |UrlExtensions| && UrlExtensions[k] == e;
    AlternativeFrom(s, at, 0, k);
  }

  lemma {:induction false} AlternativeFrom(s: string, at: nat, a: nat, k: nat)
    requires at <= |s| && a <= k < |UrlExtensions|
    requires var e := UrlExtensions[k];
      at + |e| <= |s| && Lower(s[at..at + |e|]) == e && QueryTail(s[at + |e|..])
    ensures AlternativeAt(s, at, a) == Some(UrlExtensions[k])
    decreases k - a
  {
    if a < k {
      var e := UrlExtensions[a];
      if at + |e| <= |s| && Lower(s[at..at + |e|]) == e && QueryTail(s[at + |e|..]) {
        AlternativeUnique(s, at, a, k);
        assert false;
      }
      assert AlternativeAt(s, at, a) == AlternativeAt(s, at, a + 1);
      AlternativeFrom(s, at, a + 1, k);
    }
  }

  /** At one position at most one alternative matches: no extension is a prefix of another. */
  lemma AlternativeUnique(s: string, at: nat, a: nat, k: nat)
    requires a < |UrlExtensions| && k < |UrlExtensions|
    requires at + |UrlExtensions[a]| <= |s| && Lower(s[at..at + |UrlExtensions[a]|]) == UrlExtensions[a]
    requires at + |UrlExtensions[k]| <= |s| && Lower(s[at..at + |UrlExtensions[k]|]) == UrlExtensions[k]
    ensures a == k
  {
    var ea := UrlExtensions[a];
    var ek := UrlExtensions[k];
    var x := s[at..at + |ea|];
    var y := s[at..at + |ek|];
    forall j | 0 <= j < 3
      ensures ea[j] == ek[j]
    {
      assert Lower(x)[j] == LowerChar(x[j]) == LowerChar(s[at + j]);
      assert Lower(y)[j] == LowerChar(y[j]) == LowerChar(s[at + j]);
    }
    assert ea[0] == ek[0] && ea[1] == ek[1] && ea[2] == ek[2];
  }

  lemma FirstMatchSkips(s: string, i: nat, at: nat)
    requires i <= at < |s|
    requires forall q :: i <= q < at ==> MatchAt(s, q).None?
    ensures FirstMatchFrom(s, i) == if MatchAt(s, at).Some? then MatchAt(s, at) else FirstMatchFrom(s, at + 1)
  {
    forall q | i <= q < at ensures MatchesIn(s)(q).None? {
      assert MatchAt(s, q).None?;
    }
    LeftmostSkips(MatchesIn(s), i, at, |s|);
    assert MatchesIn(s)(at) == MatchAt(s, at);
  }

  /** The name splits at its underscores into "notion", the timestamp and the rest, and the
      timestamp reads back: names carry their creation time. */
  lemma FileNameRoundTrip(timestamp: nat, random: string, contentType: string, originalUrl: string)
    requires '_' !in random
    ensures var parts := Split(GenerateFileName(timestamp, random, contentType, originalUrl), '_');
      && |parts| == 3
      && parts[0] == "notion"
      && parts[1] == NatToString(timestamp)
      && DecimalValue(parts[1]) == timestamp
      && parts[2] == random + GetFileExtension(contentType, originalUrl)
  {
    var ext := GetFileExtension(contentType, originalUrl);
    ExtensionShape(contentType, originalUrl);
    var digits := NatToString(timestamp);
    assert '_' !in digits by {
      forall k | 0 <= k < |digits| ensures digits[k] != '_' {
        assert IsDigit(digits[k]);
      }
    }
    assert '_' !in ext;
    var rest := random + ext;
    assert '_' !in rest by {
      forall k | 0 <= k < |rest| ensures rest[k] != '_' {
        if k < |random| { assert rest[k] == random[k]; } else { assert rest[k] == ext[k - |random|]; }
      }
    }
    var parts := ["notion", digits, rest];
    assert parts[1..] == [digits, rest] && parts[1..][1..] == [rest];
    assert Join([rest], "_") == rest;
    assert Join([digits, rest], "_") == digits + "_" + rest;
    assert Join(parts, "_") == "notion" + "_" + (digits + "_" + rest);
    assert GenerateFileName(timestamp, random, contentType, originalUrl) == "notion" + "_" + (digits + "_" + rest);
    SplitJoin(parts, '_');
    NatToStringRoundTrip(timestamp);
  }
}
