/** Construction of an OCR loader: the keyword arguments the caller passes,
    the checks the constructor makes on them, and the loader it keeps. */
module LoaderConfig {
  import opened Wrappers
  import opened Text
  import Base64

  /** Output mode: one record for the whole document, or one per page. */
  datatype Mode = Single | Page

  /** The constructor's keyword arguments, before any check. */
  datatype LoaderArgs = LoaderArgs(
    proxyBaseUrl: string,
    apiKey: Option<string>,
    model: string,
    filePath: Option<string>,
    urlPath: Option<string>,
    base64Content: Option<string>,
    bytesContent: Option<seq<Base64.byte>>,
    mode: string,
    timeout: real,
    maxRetries: int)

  /** A constructed loader. `baseUrl` has its trailing slashes removed. */
  datatype Loader = Loader(
    baseUrl: string,
    apiKey: Option<string>,
    model: string,
    filePath: Option<string>,
    urlPath: Option<string>,
    base64Content: Option<string>,
    bytesContent: Option<seq<Base64.byte>>,
    mode: Mode,
    timeout: real,
    maxRetries: nat)

  /** The configuration errors, in the order the constructor checks for them. */
  datatype ConfigError =
    | NoSource
    | TooManySources(count: nat)
    | BadMode(mode: string)
    | BadBaseUrl(url: string)
    | NonPositiveTimeout(timeout: real)
    | NegativeRetries(maxRetries: int)

  /** The keyword defaults; no input source is given by default. */
  function DefaultArgs(): LoaderArgs {
    LoaderArgs("http://localhost:4000", None, "azure-document", None, None, None, None, "single", 300.0, 3)
  }

  function Count(given: bool): nat {
    if given then 1 else 0
  }

  /** How many of the four sources are not `None` (an empty one counts). */
  function SourceCount(a: LoaderArgs): nat {
    Count(a.filePath.Some?) + Count(a.urlPath.Some?) + Count(a.base64Content.Some?) + Count(a.bytesContent.Some?)
  }

  function ParseMode(m: string): (r: Option<Mode>)
    ensures r.Some? <==> m == "single" || m == "page"
  {
    if m == "single" then Some(Single)
    else if m == "page" then Some(Page)
    else None
  }

  predicate HasHttpScheme(url: string) {
    HasPrefix(url, "http://") || HasPrefix(url, "https://")
  }

  /** The constructor: every check passes, or the first failing one is reported. */
  function New(a: LoaderArgs): (r: Result<Loader, ConfigError>)
    ensures r.Success? <==>
      SourceCount(a) == 1 && ParseMode(a.mode).Some? && HasHttpScheme(a.proxyBaseUrl) && a.timeout > 0.0 && a.maxRetries >= 0
  {
    var n := SourceCount(a);
    if n == 0 then Failure(NoSource)
    else if n > 1 then Failure(TooManySources(n))
    else if ParseMode(a.mode).None? then Failure(BadMode(a.mode))
    else if !HasHttpScheme(a.proxyBaseUrl) then Failure(BadBaseUrl(a.proxyBaseUrl))
    else if a.timeout <= 0.0 then Failure(NonPositiveTimeout(a.timeout))
    else if a.maxRetries < 0 then Failure(NegativeRetries(a.maxRetries))
    else
      Success(Loader(RStripSlashes(a.proxyBaseUrl), a.apiKey, a.model, a.filePath, a.urlPath,
                     a.base64Content, a.bytesContent, ParseMode(a.mode).value, a.timeout, a.maxRetries))
  }

  /** What a constructed loader guarantees: exactly one source field set, a
      positive timeout, and a base URL that keeps its scheme but ends in no slash. */
  predicate Valid(l: Loader) {
    && Count(l.filePath.Some?) + Count(l.urlPath.Some?) + Count(l.base64Content.Some?) + Count(l.bytesContent.Some?) == 1
    && l.timeout > 0.0
    && (HasPrefix(l.baseUrl, "http:") || HasPrefix(l.baseUrl, "https:"))
    && (|l.baseUrl| == 0 || l.baseUrl[|l.baseUrl| - 1] != '/')
  }

  /** A construction that succeeds copies the arguments and yields a valid loader. */
  lemma NewYieldsValidLoader(a: LoaderArgs)
    requires New(a).Success?
    ensures var l := New(a).value;
      && Valid(l)
      && l.filePath == a.filePath && l.urlPath == a.urlPath
      && l.base64Content == a.base64Content && l.bytesContent == a.bytesContent
      && l.apiKey == a.apiKey && l.model == a.model
      && l.timeout == a.timeout && l.maxRetries == a.maxRetries
      && (l.mode == Page <==> a.mode == "page")
      && HasPrefix(a.proxyBaseUrl, l.baseUrl)
      && forall i :: |l.baseUrl| <= i < |a.proxyBaseUrl| ==> a.proxyBaseUrl[i] == '/'
  {
    if HasPrefix(a.proxyBaseUrl, "http://") {
      assert HasPrefix(a.proxyBaseUrl, "http:");
      RStripKeepsPrefix(a.proxyBaseUrl, "http:");
    } else {
      assert HasPrefix(a.proxyBaseUrl, "https:");
      RStripKeepsPrefix(a.proxyBaseUrl, "https:");
    }
  }

  /** Whether the arguments break the check that reports `e`. */
  predicate Violates(a: LoaderArgs, e: ConfigError) {
    match e
    case NoSource => SourceCount(a) == 0
    case TooManySources(n) => n == SourceCount(a) && n > 1
    case BadMode(m) => m == a.mode && m != "single" && m != "page"
    case BadBaseUrl(u) => u == a.proxyBaseUrl && !HasHttpScheme(u)
    case NonPositiveTimeout(t) => t == a.timeout && t <= 0.0
    case NegativeRetries(k) => k == a.maxRetries && k < 0
  }

  /** Position of each check in the constructor. */
  function Rank(e: ConfigError): nat {
    match e
    case NoSource => 0
    case TooManySources(_) => 0
    case BadMode(_) => 1
    case BadBaseUrl(_) => 2
    case NonPositiveTimeout(_) => 3
    case NegativeRetries(_) => 4
  }

  /** A failed construction reports a check the arguments really break, and
      no broken check comes before it: a bad source count is reported
      whatever else is wrong, a bad mode before a bad URL, and so on. */
  lemma ErrorIsFirstViolation(a: LoaderArgs, other: ConfigError)
    requires New(a).Failure?
    ensures Violates(a, New(a).error)
    ensures Violates(a, other) ==> Rank(New(a).error) <= Rank(other)
  {
  }

  /** Construction succeeds exactly when no check is broken. */
  lemma SuccessIffNoViolation(a: LoaderArgs)
    ensures New(a).Success? <==> forall e :: !Violates(a, e)
  {
    if New(a).Failure? {
      ErrorIsFirstViolation(a, New(a).error);
    } else {
      forall e ensures !Violates(a, e) {
      }
    }
  }

  /** A URL-only loader takes the default timeout of 300 seconds, three
      retries and `single` mode. */
  lemma DefaultsExample()
    ensures var r := New(DefaultArgs().(urlPath := Some("https://example.com/doc.pdf")));
      r.Success? && r.value.timeout == 300.0 && r.value.maxRetries == 3 && r.value.mode == Single
  {
  }

  /** The validation cases pinned by the unit tests. */
  lemma ConstructorExamples()
    ensures New(DefaultArgs()) == Failure(NoSource)
    ensures New(DefaultArgs().(filePath := Some("/tmp/test.pdf"), urlPath := Some("https://example.com/doc.pdf")))
      == Failure(TooManySources(2))
    ensures New(DefaultArgs().(urlPath := Some("https://example.com/doc.pdf"), mode := "invalid"))
      == Failure(BadMode("invalid"))
    ensures New(DefaultArgs().(urlPath := Some("https://example.com/doc.pdf"), proxyBaseUrl := "invalid-url"))
      == Failure(BadBaseUrl("invalid-url"))
  {
    var u := "invalid-url";
    assert u[0] == 'i';
    assert u[..7][0] == 'i' && u[..8][0] == 'i';
    assert !HasHttpScheme("invalid-url");
  }
}
