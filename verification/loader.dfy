/** `load`: payload preparation, the retried request, and response
    normalisation, composed. `aload` and `lazy_load` produce the same
    records through the same three stages. */
module Loader {
  import opened Wrappers
  import opened Json
  import opened LoaderConfig
  import opened Payload
  import opened Retry
  import opened Request
  import opened Response

  datatype LoadError =
    | PayloadFailed(payloadError: PayloadError)
    | RequestFailed(failure: RequestFailure)
    | ResponseFailed(responseError: ResponseError)

  /** The proxy as seen from the loader: the outcome of attempt `n` of a request. */
  type Transport = (OcrRequest, nat) -> Outcome

  /** The attempt script one request meets. */
  function ServerFor(transport: Transport, req: OcrRequest): Server {
    (n: nat) => transport(req, n)
  }

  /** The request a loader sends for a prepared payload. */
  function RequestFor(l: Loader, files: FileSystem, guess: MimeGuesser): Option<OcrRequest> {
    match Prepare(l, files, guess)
    case Success(p) => Some(Build(l, p))
    case Failure(_) => None
  }

  function Load(l: Loader, files: FileSystem, guess: MimeGuesser, transport: Transport): (r: Result<seq<Document>, LoadError>)
    ensures r.Failure? && r.error.RequestFailed? ==> 1 <= r.error.failure.attempts <= l.maxRetries + 1
    ensures r.Failure? && r.error.RequestFailed? ==>
      && RequestFor(l, files, guess).Some?
      && var req := RequestFor(l, files, guess).value;
      && FirstStop(ServerFor(transport, req), l.maxRetries, r.error.failure.attempts - 1)
      && r.error.failure.cause == transport(req, r.error.failure.attempts - 1)
  {
    match Prepare(l, files, guess)
    case Failure(e) => Failure(PayloadFailed(e))
    case Success(payload) =>
      var req := Build(l, payload);
      match Execute(req, l.maxRetries, ServerFor(transport, req))
      case Failure(f) => Failure(RequestFailed(f))
      case Success(body) =>
        match Process(l, body)
        case Failure(e) => Failure(ResponseFailed(e))
        case Success(docs) => Success(docs)
  }

  /** A payload error is raised before any request: the result does not
      depend on the proxy at all. */
  lemma PayloadErrorBeforeNetwork(l: Loader, files: FileSystem, guess: MimeGuesser, t1: Transport, t2: Transport)
    requires Prepare(l, files, guess).Failure?
    ensures Load(l, files, guess, t1) == Load(l, files, guess, t2) == Failure(PayloadFailed(Prepare(l, files, guess).error))
  {
  }

  /** A response without usable pages is not retried: after a first
      successful attempt the result depends only on that response body. */
  lemma FirstResponseDecides(l: Loader, files: FileSystem, guess: MimeGuesser, transport: Transport)
    requires RequestFor(l, files, guess).Some?
    requires transport(RequestFor(l, files, guess).value, 0).Ok?
    ensures var body := transport(RequestFor(l, files, guess).value, 0).body;
      Load(l, files, guess, transport) ==
        match Process(l, body)
        case Failure(e) => Failure(ResponseFailed(e))
        case Success(docs) => Success(docs)
  {
    var req := RequestFor(l, files, guess).value;
    FirstSuccessReturned(ServerFor(transport, req), l.maxRetries);
  }

  /** Whatever happens before it, the attempt the retry loop stops after
      decides `load`: its body is normalised, or its failure is reported
      with one attempt more than its index. */
  lemma {:induction false} StoppingAttemptDecides(l: Loader, files: FileSystem, guess: MimeGuesser, transport: Transport, k: nat)
    requires RequestFor(l, files, guess).Some?
    requires k <= l.maxRetries && FirstStop(ServerFor(transport, RequestFor(l, files, guess).value), l.maxRetries, k)
    ensures var req := RequestFor(l, files, guess).value;
      var o := transport(req, k);
      Load(l, files, guess, transport) ==
        if o.Ok? then
          match Process(l, o.body)
          case Failure(e) => Failure(ResponseFailed(e))
          case Success(docs) => Success(docs)
        else Failure(RequestFailed(RequestFailure(FailureMessage(req.url, k + 1, o), k + 1, o)))
  {
    var req := RequestFor(l, files, guess).value;
    ClosedForm(ServerFor(transport, req), l.maxRetries, k);
  }

  /** A proxy that only ever fails transiently makes `load` fail after
      exactly `max_retries + 1` attempts, with the last failure as cause. */
  lemma TransientFailuresExhaustLoad(l: Loader, files: FileSystem, guess: MimeGuesser, transport: Transport)
    requires RequestFor(l, files, guess).Some?
    requires forall n: nat :: IsTransient(transport(RequestFor(l, files, guess).value, n))
    ensures var req := RequestFor(l, files, guess).value;
      var r := Load(l, files, guess, transport);
      && r.Failure? && r.error.RequestFailed?
      && r.error.failure.attempts == l.maxRetries + 1
      && r.error.failure.cause == transport(req, l.maxRetries)
  {
    var req := RequestFor(l, files, guess).value;
    var server := ServerFor(transport, req);
    assert forall i :: IsTransient(server(i));
    AlwaysTransientExhausts(server, l.maxRetries);
  }

  /** `load` succeeds exactly when the payload can be built, some allowed
      attempt succeeds, and its response normalises. */
  lemma LoadSucceedsIff(l: Loader, files: FileSystem, guess: MimeGuesser, transport: Transport)
    ensures Load(l, files, guess, transport).Success? <==>
      && RequestFor(l, files, guess).Some?
      && var t := Run(ServerFor(transport, RequestFor(l, files, guess).value), l.maxRetries);
         t.result.Success? && Process(l, t.result.value).Success?
  {
  }
}
