/** One OCR request: the endpoint, headers and JSON body the loader POSTs,
    the retried execution, and the single error it raises when every
    allowed attempt has failed. */
module Request {
  import opened Wrappers
  import opened Json
  import opened Text
  import Decimal
  import opened LoaderConfig
  import opened Payload
  import opened Retry

  datatype OcrRequest = OcrRequest(url: string, headers: map<string, string>, body: Json)

  /** The base URL (already stripped of trailing slashes) plus `/ocr`. */
  function Endpoint(l: Loader): (url: string)
    ensures HasSuffix(url, "/ocr") && HasPrefix(url, l.baseUrl)
  {
    var url := l.baseUrl + "/ocr";
    assert url[|url| - 4..] == "/ocr";
    url
  }

  /** A JSON content type always; a bearer token only when a non-empty key is configured. */
  function Headers(apiKey: Option<string>): (h: map<string, string>)
    ensures "Content-Type" in h && h["Content-Type"] == "application/json"
    ensures "Authorization" in h <==> NonEmpty(apiKey)
    ensures "Authorization" in h ==> h["Authorization"] == "Bearer " + apiKey.value
    ensures h.Keys <= {"Content-Type", "Authorization"}
  {
    var h := map["Content-Type" := "application/json"];
    if NonEmpty(apiKey) then h["Authorization" := "Bearer " + apiKey.value] else h
  }

  function PayloadJson(p: DocumentPayload): Json {
    JObj(map["type" := JStr(p.kind), "document_url" := JStr(p.documentUrl)])
  }

  /** `{"model": model, "document": payload}`. */
  function Body(model: string, p: DocumentPayload): Json {
    JObj(map["model" := JStr(model), "document" := PayloadJson(p)])
  }

  /** Reads the model and the document payload back out of a request body. */
  function ReadBody(body: Json): Option<(string, DocumentPayload)> {
    if !body.JObj? || "model" !in body.fields || "document" !in body.fields then None
    else
      var m := body.fields["model"];
      var d := body.fields["document"];
      if !m.JStr? || !d.JObj? || "type" !in d.fields || "document_url" !in d.fields then None
      else
        var k := d.fields["type"];
        var u := d.fields["document_url"];
        if !k.JStr? || !u.JStr? then None
        else Some((m.s, DocumentPayload(k.s, u.s)))
  }

  function Build(l: Loader, p: DocumentPayload): OcrRequest {
    OcrRequest(Endpoint(l), Headers(l.apiKey), Body(l.model, p))
  }

  /** The request carries exactly the configured model and the prepared payload. */
  lemma BodyRoundTrip(l: Loader, p: DocumentPayload)
    ensures ReadBody(Build(l, p).body) == Some((l.model, p))
  {
  }

  /** The endpoint of a constructed loader is the caller's base URL with
      its trailing slashes dropped, plus `/ocr`. */
  lemma EndpointOfConstructed(a: LoaderArgs)
    requires New(a).Success?
    ensures HasSuffix(Endpoint(New(a).value), "/ocr")
    ensures var url := Endpoint(New(a).value); var base := url[..|url| - 4];
      && HasPrefix(a.proxyBaseUrl, base)
      && (|base| == 0 || base[|base| - 1] != '/')
      && forall i :: |base| <= i < |a.proxyBaseUrl| ==> a.proxyBaseUrl[i] == '/'
  {
    NewYieldsValidLoader(a);
    var url := Endpoint(New(a).value);
    assert url[..|url| - 4] == New(a).value.baseUrl;
  }

  /** The unit tests' request: default proxy, and a keyed custom proxy. */
  lemma RequestExamples(p: DocumentPayload)
    ensures var r := New(DefaultArgs().(urlPath := Some("https://example.com/doc.pdf")));
      r.Success? && Build(r.value, p).url == "http://localhost:4000/ocr"
        && "Authorization" !in Build(r.value, p).headers
    ensures var r := New(DefaultArgs().(proxyBaseUrl := "https://my-proxy.com/", apiKey := Some("test-key"),
                                        urlPath := Some("https://example.com/doc.pdf"), model := "custom-model"));
      r.Success? && Build(r.value, p).url == "https://my-proxy.com/ocr"
        && Build(r.value, p).headers["Authorization"] == "Bearer test-key"
        && ReadBody(Build(r.value, p).body) == Some(("custom-model", p))
  {
    var u := "https://my-proxy.com/";
    assert RStripSlashes(u) == "https://my-proxy.com";
  }

  /** Bodies longer than this are cut in status-error messages. */
  const MaxBodyInMessage: nat := 500

  /** `digits` is the canonical decimal numeral of `n`: digits only, no
      leading zero, and value `n`. */
  predicate Spells(digits: string, n: nat) {
    Decimal.AllDigits(digits) && Decimal.Value(digits) == n && (|digits| > 1 ==> digits[0] != '0')
  }

  /** "1 attempt." or "<n> attempts.": a numeral spelling the count, then
      the noun in the number the count calls for. */
  function AttemptsPhrase(n: nat): (r: string)
    ensures r == "1 attempt." <==> n == 1
    ensures n != 1 ==> |r| > 10 && r[|r| - 10..] == " attempts." && Spells(r[..|r| - 10], n)
  {
    if n == 1 then "1 attempt."
    else
      var digits := Decimal.NatToString(n);
      var r := digits + " attempts.";
      assert r[..|r| - 10] == digits;
      assert r[|r| - 10..] == " attempts.";
      assert r != "1 attempt." by {
        if |digits| == 1 {
          assert Decimal.Value(digits) == n;
          assert r[0] == digits[0] != '1';
        } else {
          assert |r| > |"1 attempt."|;
        }
      }
      r
  }

  /** " (<n> attempts made)" after a retry, nothing for a single attempt. */
  function RetryNote(n: nat): (r: string)
    ensures r == "" <==> n <= 1
    ensures n > 1 ==> |r| > 17 && r[..2] == " (" && r[|r| - 15..] == " attempts made)" && Spells(r[2..|r| - 15], n)
  {
    if n > 1 then
      var digits := Decimal.NatToString(n);
      var r := " (" + digits + " attempts made)";
      assert r[..2] == " (";
      assert r[2..|r| - 15] == digits;
      assert r[|r| - 15..] == " attempts made)";
      r
    else ""
  }

  /** The count phrase tells attempt counts apart: two failures report
      the same phrase only when they made the same number of attempts. */
  lemma AttemptsPhraseInjective(m: nat, n: nat)
    requires AttemptsPhrase(m) == AttemptsPhrase(n)
    ensures m == n
  {
  }

  /** The consolidated error message for the terminal failure. */
  function FailureMessage(url: string, attempts: nat, cause: Outcome): string
    requires !cause.Ok?
  {
    match cause
    case RequestErr(detail) =>
      "Failed to connect to LiteLLM proxy at " + url + ". Is the proxy running?"
      + RetryNote(attempts) + " Error: " + detail
    case StatusErr(status, text) =>
      "LiteLLM OCR request to " + url + " failed after " + AttemptsPhrase(attempts)
      + " Status: " + Decimal.NatToString(status) + ", Response: " + Truncate(text, MaxBodyInMessage)
  }

  /** The raised `RuntimeError`: its message, the attempt count, and its
      cause (the last failure, chained with `from`). */
  datatype RequestFailure = RequestFailure(message: string, attempts: nat, cause: Outcome)

  lemma Sandwich(head: string, mid: string, tail: string)
    ensures var m := head + mid + tail;
      HasPrefix(m, head) && HasSuffix(m, tail) && |head| + |tail| <= |m| && m[|head|..|m| - |tail|] == mid
  {
    var m := head + mid + tail;
    assert m[..|head|] == head;
    assert m[|m| - |tail|..] == tail;
    assert m[|head|..|m| - |tail|] == mid;
  }

  /** A transport failure's message names the proxy URL and the error; what
      lies between is the fixed question plus a count note that is empty
      exactly for a single attempt and otherwise spells the count. */
  lemma ConnectionMessageShape(url: string, attempts: nat, detail: string)
    ensures var m := FailureMessage(url, attempts, RequestErr(detail));
      var head := "Failed to connect to LiteLLM proxy at " + url + ". Is the proxy running?";
      var tail := " Error: " + detail;
      && HasPrefix(m, head) && HasSuffix(m, tail) && |head| + |tail| <= |m|
      && var mid := m[|head|..|m| - |tail|];
      && (attempts <= 1 ==> mid == "")
      && (attempts > 1 ==> |mid| > 17 && mid[..2] == " (" && mid[|mid| - 15..] == " attempts made)"
                           && Spells(mid[2..|mid| - 15], attempts))
  {
    var head := "Failed to connect to LiteLLM proxy at " + url + ". Is the proxy running?";
    var tail := " Error: " + detail;
    assert FailureMessage(url, attempts, RequestErr(detail)) == head + RetryNote(attempts) + tail;
    Sandwich(head, RetryNote(attempts), tail);
  }

  /** A status failure's message names the URL, then the attempt count
      ("1 attempt." for one, otherwise the count spelled out before
      "attempts."), then the status and a prefix of at
      most 500 characters of the response body. */
  lemma StatusMessageShape(url: string, attempts: nat, status: nat, text: string)
    ensures var m := FailureMessage(url, attempts, StatusErr(status, text));
      var head := "LiteLLM OCR request to " + url + " failed after ";
      var body := Truncate(text, 500);
      var tail := " Status: " + Decimal.NatToString(status) + ", Response: " + body;
      && HasPrefix(m, head) && HasSuffix(m, tail) && |head| + |tail| <= |m|
      && var mid := m[|head|..|m| - |tail|];
      && (attempts == 1 ==> mid == "1 attempt.")
      && (attempts != 1 ==> |mid| > 10 && mid[|mid| - 10..] == " attempts." && Spells(mid[..|mid| - 10], attempts))
      && HasPrefix(text, body) && |body| == (if |text| <= 500 then |text| else 500)
  {
    var head := "LiteLLM OCR request to " + url + " failed after ";
    var tail := " Status: " + Decimal.NatToString(status) + ", Response: " + Truncate(text, 500);
    assert FailureMessage(url, attempts, StatusErr(status, text)) == head + AttemptsPhrase(attempts) + tail;
    Sandwich(head, AttemptsPhrase(attempts), tail);
  }

  /** POSTs with retries; the body of the first success, or the
      consolidated error for the last failure. */
  function Execute(req: OcrRequest, maxRetries: nat, server: Server): (r: Result<map<string, Json>, RequestFailure>)
    ensures r.Failure? ==> 1 <= r.error.attempts <= maxRetries + 1 && !r.error.cause.Ok?
    ensures r.Failure? ==> r.error.message == FailureMessage(req.url, r.error.attempts, r.error.cause)
    ensures r.Failure? ==>
      && Stops(server, maxRetries, r.error.attempts - 1)
      && (forall j :: 0 <= j < r.error.attempts - 1 ==> !Stops(server, maxRetries, j))
      && r.error.cause == server(r.error.attempts - 1)
    ensures r.Success? ==> exists k :: 0 <= k <= maxRetries && FirstStop(server, maxRetries, k) && server(k) == Ok(r.value)
  {
    var t := Run(server, maxRetries);
    match t.result
    case Success(body) =>
      assert FirstStop(server, maxRetries, t.attempts - 1);
      Success(body)
    case Failure(cause) => Failure(RequestFailure(FailureMessage(req.url, t.attempts, cause), t.attempts, cause))
  }

  /** A server that always fails with a connection error yields one
      "Failed to connect" error that counts every attempt. */
  lemma ConnectionFailureReported(req: OcrRequest, maxRetries: nat, detail: string)
    ensures var server: Server := (i: nat) => RequestErr(detail);
      Execute(req, maxRetries, server) == Failure(RequestFailure(
        FailureMessage(req.url, maxRetries + 1, RequestErr(detail)), maxRetries + 1, RequestErr(detail)))
  {
    var server: Server := (i: nat) => RequestErr(detail);
    AlwaysTransientExhausts(server, maxRetries);
  }
}
