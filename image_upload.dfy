/** `uploadToImageBed` of scripts/image-uploader.js: up to three upload attempts, each of
    which reads the image bed's reply defensively to find the stored file's path. */
module ImageUpload {
  import opened Wrappers
  import opened JsString

  /** A JSON value as `JSON.parse` returns it; numbers are exact. */
  datatype Json =
    | JNull
    | JBool(b: bool)
    | JNumber(n: real)
    | JString(s: string)
    | JArray(elems: seq<Json>)
    | JObject(fields: map<string, Json>)

  /** What the property access `v.name` yields: a value, `undefined`, or a TypeError when `v`
      is null. */
  datatype Access = Value(v: Json) | Undefined | NullAccess

  function Get(v: Json, name: string): Access {
    match v
      case JNull => NullAccess
      case JObject(fields) => if name in fields then Value(fields[name]) else Undefined
      case _ => Undefined
  }

  /** JavaScript truthiness of a property value. */
  predicate Truthy(a: Access) {
    a.Value? && TruthyJson(a.v)
  }

  predicate TruthyJson(v: Json) {
    match v
      case JNull => false
      case JBool(b) => b
      case JNumber(n) => n != 0.0
      case JString(s) => s != ""
      case _ => true
  }

  /** `a || b || c || d` over property reads: the first truthy one, else None (the chain's
      value is then falsy). */
  function FirstTruthy(vs: seq<Access>): Option<Json> {
    if |vs| == 0 then None
    else if Truthy(vs[0]) then Some(vs[0].v)
    else FirstTruthy(vs[1..])
  }

  /** The chain yields the value of its first truthy operand, and nothing exactly when no
      operand is truthy. */
  lemma {:induction false} FirstTruthyIsFirst(vs: seq<Access>)
    ensures FirstTruthy(vs).Some? ==> exists i ::
      && 0 <= i < |vs| && Truthy(vs[i]) && vs[i] == Value(FirstTruthy(vs).value)
      && forall j :: 0 <= j < i ==> !Truthy(vs[j])
    ensures FirstTruthy(vs).None? <==> forall i :: 0 <= i < |vs| ==> !Truthy(vs[i])
  {
    if |vs| > 0 && !Truthy(vs[0]) {
      FirstTruthyIsFirst(vs[1..]);
      if FirstTruthy(vs).Some? {
        var i :| 0 <= i < |vs[1..]| && Truthy(vs[1..][i]) && vs[1..][i] == Value(FirstTruthy(vs).value)
          && forall j :: 0 <= j < i ==> !Truthy(vs[1..][j]);
        assert vs[1 + i] == vs[1..][i];
        forall j | 0 <= j < 1 + i ensures !Truthy(vs[j]) {
          if j > 0 { assert vs[j] == vs[1..][j - 1]; }
        }
      }
      assert forall i :: 1 <= i < |vs| ==> vs[i] == vs[1..][i - 1];
    }
  }

  /** One reply of the upload endpoint: a network failure, or a response whose text is
      `text` and which `JSON.parse` turns into `parsed` (None when it throws). */
  datatype UploadReply =
    | NetworkError(message: string)
    | Response(ok: bool, status: nat, statusText: string, text: string, parsed: Option<Json>)

  /** The candidate path of a reply, or why there is none. Arrays are read at their first
      element, `src` first; anything else as an object, `url` first; a reply that is not
      JSON, or whose reading throws, is taken as the trimmed text. */
  datatype Candidate = Found(v: Json) | Missing

  function RelativePath(text: string, parsed: Option<Json>): Candidate {
    match parsed
      case None => TextCandidate(text)
      case Some(j) =>
        if j.JArray? && |j.elems| > 0 then
          var first := j.elems[0];
          if first.JNull? then TextCandidate(text)
          else Pick([Get(first, "src"), Get(first, "url"), Get(first, "path"), Get(first, "data")])
        else if j.JNull? then TextCandidate(text)
        else Pick([Get(j, "url"), Get(j, "path"), Get(j, "data"), Get(j, "src")])
  }

  function TextCandidate(text: string): Candidate {
    if Trim(text) != "" then Found(JString(Trim(text))) else Missing
  }

  function Pick(vs: seq<Access>): Candidate {
    match FirstTruthy(vs)
      case Some(v) => Found(v)
      case None => Missing
  }

  const NotAFunction: string := "relativePath.startsWith is not a function"

  /** `relativePath.startsWith("/") ? p : "/" + p`. */
  function LeadingSlash(p: string): (r: string)
    ensures StartsWith(r, "/")
    ensures r == p || r == "/" + p
    ensures StartsWith(p, "/") ==> r == p
  {
    if StartsWith(p, "/") then p
    else
      assert ("/" + p)[..1] == "/";
      "/" + p
  }

  /** One attempt: the full URL, or the message of the error it throws. */
  function Attempt(reply: UploadReply, baseUrl: string): Result<string, string> {
    match reply
      case NetworkError(m) => Err(m)
      case Response(ok, status, statusText, text, parsed) =>
        if !ok then Err("上传失败: " + NatToString(status) + " " + statusText)
        else
          match RelativePath(text, parsed)
            case Missing => Err("图床返回的路径为空，原始响应: " + text)
            case Found(v) =>
              if v.JString? then Ok(baseUrl + LeadingSlash(v.s)) else Err(NotAFunction)
  }

  const MaxAttempts: nat := 3
  const RetryDelay: nat := 1000

  function Pow2(e: nat): nat {
    if e == 0 then 1 else 2 * Pow2(e - 1)
  }

  /** The pause after failed attempt k (1-based) when another follows: 1000 * 2^(k-1). */
  function UploadDelay(attempt: nat): nat
    requires attempt >= 1
  {
    RetryDelay * Pow2(attempt - 1)
  }

  /** The result of the first attempt that succeeds, else the final error after the third. */
  function FirstOfThree(a0: Result<string, string>, a1: Result<string, string>, a2: Result<string, string>): Result<string, string> {
    if a0.Ok? then a0
    else if a1.Ok? then a1
    else if a2.Ok? then a2
    else Err("图片上传最终失败: " + a2.error)
  }

  /** What uploading the file named `fileName` yields, when `replies(fileName, k)` is the
      endpoint's reply to attempt k (0-based). */
  function UploadResult(fileName: string, replies: (string, nat) -> UploadReply, baseUrl: string): Result<string, string> {
    FirstOfThree(Attempt(replies(fileName, 0), baseUrl), Attempt(replies(fileName, 1), baseUrl),
      Attempt(replies(fileName, 2), baseUrl))
  }

  /** The upload loop: it returns the URL of the first attempt that succeeds; otherwise,
      after three failed attempts, the last one's message under "图片上传最终失败: ". It
      pauses only between attempts. */
  method UploadToImageBed(fileName: string, replies: (string, nat) -> UploadReply, baseUrl: string)
    returns (r: Result<string, string>, attempts: nat, delays: seq<nat>)
    ensures r == UploadResult(fileName, replies, baseUrl)
    ensures 1 <= attempts <= MaxAttempts
    ensures forall k :: 0 <= k < attempts - 1 ==> Attempt(replies(fileName, k), baseUrl).Err?
    ensures r.Ok? ==> Attempt(replies(fileName, attempts - 1), baseUrl) == Ok(r.value)
    ensures r.Err? ==> attempts == MaxAttempts
    ensures |delays| == attempts - 1
    ensures forall k :: 0 <= k < |delays| ==> delays[k] == UploadDelay(k + 1)
  {
    var outcome := (k: nat) => Attempt(replies(fileName, k), baseUrl);
    r, attempts, delays := AttemptLoop(outcome);
    forall k | 0 <= k < attempts - 1
      ensures Attempt(replies(fileName, k), baseUrl).Err?
    {
      assert outcome(k).Err?;
    }
    assert outcome(0) == Attempt(replies(fileName, 0), baseUrl);
    assert outcome(1) == Attempt(replies(fileName, 1), baseUrl);
    assert outcome(2) == Attempt(replies(fileName, 2), baseUrl);
    if r.Ok? {
      assert outcome(attempts - 1) == Ok(r.value);
    }
  }

  /** The loop over attempts, for any outcome of attempt k. */
  method AttemptLoop(outcome: nat -> Result<string, string>)
    returns (r: Result<string, string>, attempts: nat, delays: seq<nat>)
    ensures r == FirstOfThree(outcome(0), outcome(1), outcome(2))
    ensures 1 <= attempts <= MaxAttempts
    ensures forall k :: 0 <= k < attempts - 1 ==> outcome(k).Err?
    ensures r.Ok? ==> r == outcome(attempts - 1)
    ensures r.Err? ==> attempts == MaxAttempts
    ensures |delays| == attempts - 1
    ensures forall k :: 0 <= k < |delays| ==> delays[k] == UploadDelay(k + 1)
  {
    var lastError := "";
    var attempt := 1;
    delays := [];
    while true
      invariant 1 <= attempt <= MaxAttempts
      invariant forall k :: 0 <= k < attempt - 1 ==> outcome(k).Err?
      invariant |delays| == attempt - 1
      invariant forall k :: 0 <= k < |delays| ==> delays[k] == UploadDelay(k + 1)
      decreases MaxAttempts - attempt
    {
      var result := outcome(attempt - 1);
      if result.Ok? {
        r := result;
        attempts := attempt;
        return;
      }
      lastError := result.error;
      if attempt == MaxAttempts {
        break;
      }
      delays := delays + [UploadDelay(attempt)];
      attempt := attempt + 1;
    }
    attempts := attempt;
    r := Err("图片上传最终失败: " + lastError);
  }

  // ---------------------------------------------------------------- properties

  /** The two pauses are 1000 and 2000 ms. */
  lemma UploadDelays()
    ensures UploadDelay(1) == 1000 && UploadDelay(2) == 2000
  {
  }

  /** A reply that is not JSON is the path itself, after trimming. */
  lemma PlainTextReply(text: string, baseUrl: string)
    requires Trim(text) != ""
    ensures Attempt(Response(true, 200, "OK", text, None), baseUrl)
      == Ok(baseUrl + LeadingSlash(Trim(text)))
  {
  }

  /** In an array reply, `src` of the first element wins over `url`; in an object reply
      `url` wins over `src`. */
  lemma ArrayPrefersSrcObjectPrefersUrl(text: string, src: string, url: string, rest: seq<Json>)
    requires src != "" && url != ""
    ensures RelativePath(text, Some(JArray([JObject(map["src" := JString(src), "url" := JString(url)])] + rest)))
      == Found(JString(src))
    ensures RelativePath(text, Some(JObject(map["src" := JString(src), "url" := JString(url)])))
      == Found(JString(url))
  {
    var o := JObject(map["src" := JString(src), "url" := JString(url)]);
    assert Get(o, "src") == Value(JString(src));
    assert Get(o, "url") == Value(JString(url));
    assert Truthy(Value(JString(src))) && Truthy(Value(JString(url)));
  }

  /** A successful attempt's URL is the base URL followed by a path that starts with "/". */
  lemma SuccessShape(reply: UploadReply, baseUrl: string)
    requires Attempt(reply, baseUrl).Ok?
    ensures var u := Attempt(reply, baseUrl).value;
      |u| > |baseUrl| && u[..|baseUrl|] == baseUrl && u[|baseUrl|] == '/'
  {
    var v := RelativePath(reply.text, reply.parsed).v;
    var p := LeadingSlash(v.s);
    assert (baseUrl + p)[..|baseUrl|] == baseUrl;
    assert (baseUrl + p)[|baseUrl|] == p[0];
  }

  /** A reply without any truthy path field fails with the raw text in its message. */
  lemma EmptyPathFails(text: string)
    ensures Attempt(Response(true, 200, "OK", text, Some(JObject(map[]))), "")
      == Err("图床返回的路径为空，原始响应: " + text)
  {
    assert Pick([Undefined, Undefined, Undefined, Undefined]) == Missing;
  }

  /** A truthy path that is not a string makes `startsWith` throw, which the loop retries. */
  lemma NumericPathThrows(text: string)
    ensures Attempt(Response(true, 200, "OK", text, Some(JObject(map["url" := JNumber(1.0)]))), "")
      == Err(NotAFunction)
  {
    var o := JObject(map["url" := JNumber(1.0)]);
    assert Get(o, "url") == Value(JNumber(1.0));
  }

  /** A null first element makes the property read throw inside the parsing block, so the
      trimmed text is used instead. */
  lemma NullFirstElementFallsBack(text: string)
    requires Trim(text) != ""
    ensures RelativePath(text, Some(JArray([JNull]))) == Found(JString(Trim(text)))
  {
  }

  /** The upload succeeds exactly when one of the three attempts does, and then with the
      first such attempt's URL; otherwise its error names the third attempt's failure. */
  lemma UploadResultIsFirstSuccess(fileName: string, replies: (string, nat) -> UploadReply, baseUrl: string)
    ensures var r := UploadResult(fileName, replies, baseUrl);
      && (r.Ok? <==> exists k :: 0 <= k < MaxAttempts && Attempt(replies(fileName, k), baseUrl).Ok?)
      && (r.Ok? ==> exists k ::
            && 0 <= k < MaxAttempts
            && Attempt(replies(fileName, k), baseUrl) == r
            && forall j :: 0 <= j < k ==> Attempt(replies(fileName, j), baseUrl).Err?)
      && (r.Err? ==> r.error == "图片上传最终失败: " + Attempt(replies(fileName, 2), baseUrl).error)
  {
    var r := UploadResult(fileName, replies, baseUrl);
    var a0 := Attempt(replies(fileName, 0), baseUrl);
    var a1 := Attempt(replies(fileName, 1), baseUrl);
    var a2 := Attempt(replies(fileName, 2), baseUrl);
    if a0.Ok? {
      assert r == a0;
    } else if a1.Ok? {
      assert r == a1;
      forall j | 0 <= j < 1 ensures Attempt(replies(fileName, j), baseUrl).Err? {
        assert j == 0;
      }
    } else if a2.Ok? {
      assert r == a2;
      forall j | 0 <= j < 2 ensures Attempt(replies(fileName, j), baseUrl).Err? {
        assert j == 0 || j == 1;
      }
    } else {
      forall k | 0 <= k < MaxAttempts ensures Attempt(replies(fileName, k), baseUrl).Err? {
        assert k == 0 || k == 1 || k == 2;
      }
    }
  }
}
