# LiteLLM OCR loader and embeddings parameters, modelled in Dafny

This project models the two pieces of `langchain-litellm` that hold real logic.

**The OCR document loader, `LiteLLMOCRLoader`.** It posts a document to a LiteLLM proxy's `/ocr` endpoint and turns the answer into LangChain documents. It works in four stages:

- **Construction.** The constructor validates its keyword arguments (module `LoaderConfig`).
- **Payload.** It builds a `{"type": "document_url", "document_url": ...}` payload from one of four input kinds (module `Payload`). Files, raw bytes and bare base64 text become a `data:<mime>;base64,<data>` URI, while base64 text that already starts with `data:` is sent unchanged. The URI built is the form of section 3 of RFC 2397, with the padded base64 alphabet of section 4 of RFC 4648 (modules `DataUri`, `Base64`).
- **Request.** It POSTs `{model, document}` with bounded retries and exponential backoff (modules `Request`, `Retry`). Only transport errors and statuses 408, 429 and 500 and above are retried. The final failure is reported as one error.
- **Response.** It normalises the response's `pages` into one record per page (`page` mode) or one joined record (`single` mode) (module `Response`).

`load` composes the four stages (module `Loader`).

**The embeddings adapter's keyword dictionary, `LiteLLMEmbeddings._get_litellm_params`** (module `Embeddings`). It merges the configured fields with `model_kwargs` (later keys win) and drops `None` values. `embed_documents` and `embed_query` run over an abstract backend.

The model replaces the outside world with values:

- **Proxy.** It becomes a function from attempt index to outcome (`Ok(json) | RequestErr(detail) | StatusErr(status, text)`).
- **Sleeps.** These become the returned list of backoff delays.
- **File system.** It becomes a map from existing paths to their bytes.
- **`mimetypes.guess_type`.** It becomes an opaque function from file name to an optional media type.
- **Embedding backend.** It becomes an opaque function from `(texts, params)` to the response's `data` items.

The synchronous and asynchronous request branches are the same algorithm, so one function models both.

Each operation has a partner that it is proved against:

- **Base64.** The encoder is proved lossless against a decoder, in both directions.
- **Data URIs.** The builder is proved against a parser, in both directions.
- **Request body.** It is read back into the model name and payload.
- **Retry loop.** The recursive function is proved equal to its closed form: the first stopping attempt determines the attempt count, the result and the delays `1, 2, …, 2^(k-1)`. The loop-shaped method is proved equal to the recursive function.
- **Response modes.** The two modes are proved to agree: `single` mode's content is `page` mode's contents joined by blank lines.

## Model

| member | source | states |
|---|---|---|
| LoaderConfig.New | langchain_litellm/document_loaders/litellm_ocr.py:89-130 | Construction succeeds exactly when one source is not `None`, the mode is `single` or `page`, the base URL starts with `http://` or `https://`, the timeout is positive and the retry count is non-negative. |
| LoaderConfig.ErrorIsFirstViolation | langchain_litellm/document_loaders/litellm_ocr.py:89-119 | A failed construction reports a check the arguments really break, and no broken check comes earlier in the fixed order. That order is source count, mode, base URL, timeout, retries. So a bad source count is reported whatever else is wrong. |
| LoaderConfig.SuccessIffNoViolation | langchain_litellm/document_loaders/litellm_ocr.py:89-119 | Construction succeeds exactly when none of the five checks is broken. |
| LoaderConfig.NewYieldsValidLoader | langchain_litellm/document_loaders/litellm_ocr.py:89-130 | The constructed loader has exactly one source field set and a positive timeout. It copies every argument. Its base URL keeps its `http:`/`https:` scheme and is the caller's URL minus trailing slashes only. |
| LoaderConfig.ConstructorExamples | tests/unit_tests/test_litellm_ocr.py:38-65 | No source gives the no-source error, and two sources give the too-many error with count 2. A bad mode and a bad URL are reported as such. |
| LoaderConfig.DefaultsExample | tests/unit_tests/test_litellm_ocr.py:372-376 | A URL-only loader gets timeout 300.0, 3 retries and `single` mode. |
| Text.RStripSlashes | langchain_litellm/document_loaders/litellm_ocr.py:121 | `rstrip("/")` returns a prefix of its input that does not end in `/`. Everything it removes is `/`. |
| Text.RStripKeepsPrefix | langchain_litellm/document_loaders/litellm_ocr.py:109-121 | Stripping keeps any prefix that does not itself end in `/`, such as the URL scheme. |
| Text.RStripIdempotent | langchain_litellm/document_loaders/litellm_ocr.py:121 | Stripping twice is the same as stripping once. |
| Payload.Prepare | langchain_litellm/document_loaders/litellm_ocr.py:132-194 | Every payload built has type `document_url`. Every non-URL payload starts with `data:`. |
| Payload.MimeFor | langchain_litellm/document_loaders/litellm_ocr.py:156-159 | The media type is the guessed type when there is one, else `application/pdf`. |
| Payload.UrlSentVerbatim | langchain_litellm/document_loaders/litellm_ocr.py:138-143 | A non-empty URL source is sent unchanged, whatever the other fields hold. |
| Payload.FilePayloadCarriesContents | langchain_litellm/document_loaders/litellm_ocr.py:145-168 | An existing file is sent as a data URI. Parsing it and base64-decoding it gives back exactly the file's bytes, under the guessed media type or PDF. |
| Payload.MissingFileReported | langchain_litellm/document_loaders/litellm_ocr.py:147-149 | A file path that does not exist fails with file-not-found naming that path. |
| Payload.Base64TextWrapped | langchain_litellm/document_loaders/litellm_ocr.py:170-181 | Base64 text starting with `data:` passes through unchanged. Other text becomes exactly `data:application/pdf;base64,` followed by the text, and parses back to (PDF, text) when it holds no comma. |
| Payload.BytesPayloadCarriesContents | langchain_litellm/document_loaders/litellm_ocr.py:183-191 | Raw bytes are sent as a PDF data URI that decodes back to exactly those bytes. |
| Payload.UnpackMake | langchain_litellm/document_loaders/litellm_ocr.py:162-163 | A data URI built from a media type and base64-encoded bytes unpacks to that media type and those bytes. |
| Payload.EmptySourceFailsAtDispatch | langchain_litellm/document_loaders/litellm_ocr.py:138-194 | For a constructed loader, dispatch fails with "no input source" exactly when its one set source is empty. Validation counts `None`, but dispatch tests truthiness. |
| Payload.EmptyUrlAcceptedThenRejected | langchain_litellm/document_loaders/litellm_ocr.py:90-194 | An empty URL passes construction and then fails at dispatch. |
| Base64.Encode | langchain_litellm/document_loaders/litellm_ocr.py:162 | The encoding has length 4·⌈n/3⌉ and uses only the RFC 4648 alphabet and `=`. |
| Base64.RfcShortVectors | langchain_litellm/document_loaders/litellm_ocr.py:162 | The encoder gives the RFC 4648 test vectors "", "Zg==", "Zm8=" and "Zm9v" for "", "f", "fo" and "foo". |
| Base64.RfcLongVectors | langchain_litellm/document_loaders/litellm_ocr.py:162 | The encoder gives the RFC 4648 test vectors "Zm9vYg==", "Zm9vYmE=" and "Zm9vYmFy" for "foob", "fooba" and "foobar". |
| Base64.DecodeEncode | langchain_litellm/document_loaders/litellm_ocr.py:162 | Decoding the encoding of any byte string gives back that byte string. |
| Base64.EncodeDecode | langchain_litellm/document_loaders/litellm_ocr.py:185 | Every string the decoder accepts is the encoding of what it decodes to, so encoding is a bijection onto canonical base64. |
| DataUri.ParseMake | langchain_litellm/document_loaders/litellm_ocr.py:163 | A `data:<mime>;base64,<payload>` URI with a comma-free payload parses back to that media type and payload. |
| DataUri.MakeParse | langchain_litellm/document_loaders/litellm_ocr.py:176 | Every URI the parser accepts is rebuilt exactly from the parts it yields. |
| DataUri.NoCommaInBase64 | langchain_litellm/document_loaders/litellm_ocr.py:162 | Base64 output never contains a comma, so the payload boundary is unambiguous. |
| Request.Endpoint | langchain_litellm/document_loaders/litellm_ocr.py:202 | The target starts with the stored base URL and ends with `/ocr`. |
| Request.EndpointOfConstructed | langchain_litellm/document_loaders/litellm_ocr.py:202 | The target is the caller's base URL with its trailing slashes removed, followed by `/ocr`. |
| Request.Headers | langchain_litellm/document_loaders/litellm_ocr.py:203-205 | `Content-Type: application/json` is always sent. `Authorization: Bearer <key>` is sent exactly when the key is non-empty. No other header is sent. |
| Request.BodyRoundTrip | langchain_litellm/document_loaders/litellm_ocr.py:207 | The request body reads back as exactly the configured model and the prepared payload. |
| Request.RequestExamples | tests/unit_tests/test_litellm_ocr.py:219-254 | The default proxy posts to `http://localhost:4000/ocr` without authorization. A keyed proxy gets `Bearer test-key` and the custom model. |
| Retry.TransientClassification | langchain_litellm/document_loaders/litellm_ocr.py:209-216 | Transport errors are always retried. Below 500, only statuses 408 and 429 are retried. Every status of 500 and above is retried. 404 is not retried. |
| Retry.RunFrom | langchain_litellm/document_loaders/litellm_ocr.py:222-234 | From attempt n the loop makes between n+1 and max_retries+1 attempts. It stops at the first attempt that succeeds, fails non-transiently or is the last allowed attempt. It sleeps `2^i` after each earlier attempt i. It returns that attempt's body or error. |
| Retry.Run | langchain_litellm/document_loaders/litellm_ocr.py:218-234 | At most max_retries+1 attempts are made, and the delays are exactly `1, 2, …, 2^(attempts-2)`. |
| Retry.RunLoop | langchain_litellm/document_loaders/litellm_ocr.py:219-234 | The imperative loop (attempt, then return, back off or break) computes the same trace as the recursive definition. |
| Retry.ClosedForm | langchain_litellm/document_loaders/litellm_ocr.py:222-234 | If k is the first attempt at which the loop stops, the run makes k+1 attempts and sleeps `1, …, 2^(k-1)`. It returns attempt k's body or error. |
| Retry.AlwaysTransientExhausts | langchain_litellm/document_loaders/litellm_ocr.py:222-234 | A server that only fails transiently gets exactly max_retries+1 attempts and max_retries sleeps. The last failure is kept. |
| Retry.FailuresThenSuccess | langchain_litellm/document_loaders/litellm_ocr.py:222-234 | k transient failures followed by a success return that body after exactly k sleeps of `1, 2, …, 2^(k-1)`. |
| Retry.PermanentErrorStopsAtOnce | langchain_litellm/document_loaders/litellm_ocr.py:230-234 | A first failure that is not transient ends the loop after one attempt with no sleep, whatever the budget. |
| Retry.NoRetriesOneAttempt | langchain_litellm/document_loaders/litellm_ocr.py:222 | With max_retries = 0 there is exactly one attempt and no sleep. |
| Retry.FirstSuccessReturned | langchain_litellm/document_loaders/litellm_ocr.py:224-226 | A first success is returned at once, and no further attempt is made. |
| Retry.AlwaysConnectionErrorCounts | tests/unit_tests/test_litellm_ocr.py:487-534 | A server that always refuses gets 4 attempts and sleeps 1, 2, 4 with max_retries = 3. It gets 2 attempts with max_retries = 1. |
| Retry.RecoveringServerCounts | tests/unit_tests/test_litellm_ocr.py:411-485 | Two connection errors then a success take 3 attempts and sleeps 1, 2. One 503 then a success takes 2 attempts and one sleep of 1. |
| Request.AttemptsPhrase | langchain_litellm/document_loaders/litellm_ocr.py:249-252 | The count phrase is "1 attempt." exactly when there was one attempt. Otherwise it is the count's canonical decimal numeral (no leading zero), followed by " attempts.". |
| Request.AttemptsPhraseInjective | langchain_litellm/document_loaders/litellm_ocr.py:249-252 | Two count phrases are equal only when the attempt counts are equal. |
| Request.RetryNote | langchain_litellm/document_loaders/litellm_ocr.py:242-243 | The note is empty exactly when at most one attempt was made. Otherwise it is " (", the count's canonical decimal numeral (no leading zero), and " attempts made)". |
| Request.ConnectionMessageShape | langchain_litellm/document_loaders/litellm_ocr.py:239-244 | A transport failure's message starts with "Failed to connect to LiteLLM proxy at <url>" and ends with " Error: <detail>". The count note between them is empty for a single attempt. Otherwise it is " (N attempts made)", with N the count's canonical decimal numeral. |
| Request.StatusMessageShape | langchain_litellm/document_loaders/litellm_ocr.py:245-253 | A status failure's message names the URL, then the count: "1 attempt." for one, otherwise "N attempts." with N the count's canonical decimal numeral. Then comes the status. It ends with a prefix of the body of at most 500 characters. |
| Request.Execute | langchain_litellm/document_loaders/litellm_ocr.py:236-262 | A failed request raises one error. Its attempt count is one more than the index of the attempt the loop stopped after, so no earlier attempt stopped it. Its cause is that attempt's failure, and its message is built from them. A success returns the body of the first stopping attempt. |
| Request.ConnectionFailureReported | langchain_litellm/document_loaders/litellm_ocr.py:236-262 | An always-refusing proxy yields one connection error that counts max_retries+1 attempts. |
| Decimal.NatToString | langchain_litellm/document_loaders/litellm_ocr.py:252 | The count is printed as a non-empty digit string with no leading zero, whose decimal value is the count. |
| Text.Truncate | langchain_litellm/document_loaders/litellm_ocr.py:248 | `text[:500]` is a prefix of the text of length min(length, 500). |
| Response.Process | langchain_litellm/document_loaders/litellm_ocr.py:313-380 | A response without `pages` fails with the missing-pages error in either mode. A successful `single` run yields exactly one record. |
| Response.PageItems | langchain_litellm/document_loaders/litellm_ocr.py:328-333 | A `pages` list is accepted exactly when every element is an object, and the page records are those objects in order. |
| Response.Provenance | langchain_litellm/document_loaders/litellm_ocr.py:346-354 | `source` is present exactly when the file path or URL is non-empty, and the file path wins. `model` is present exactly when the response has one. No other key is added. |
| Response.PageDocument | langchain_litellm/document_loaders/litellm_ocr.py:333-356 | A page becomes a record exactly when its markdown is text and its dimensions, if any, are an object. |
| Response.PageDocumentIsPageRecord | langchain_litellm/document_loaders/litellm_ocr.py:333-356 | A page record holds the markdown and the index (0 if absent). Width and height are present exactly when the page has dimensions. It also holds the source/model entries and no other key. |
| Response.PageDocuments | langchain_litellm/document_loaders/litellm_ocr.py:330-358 | Page mode succeeds exactly when every page is well formed. It then yields one record per page, in order. |
| Response.Markdowns | langchain_litellm/document_loaders/litellm_ocr.py:362-364 | The markdowns are collected exactly when each page's markdown (default "") is text, in page order. |
| Response.PageModeRecords | langchain_litellm/document_loaders/litellm_ocr.py:330-358 | `page` mode yields exactly one record per page, in order, each the page's record. It fails exactly when some page is malformed. |
| Response.SingleModeRecord | langchain_litellm/document_loaders/litellm_ocr.py:360-380 | `single` mode yields exactly one record. Its content is the markdowns joined by "\n\n", and its metadata is `total_pages` plus the source and model entries, with their values. It fails exactly when some markdown is not text. |
| Response.ModesAgree | langchain_litellm/document_loaders/litellm_ocr.py:330-380 | Whenever `page` mode succeeds, `single` mode succeeds too. Its content is the page records' contents joined by blank lines, and it counts them. |
| Response.SingleModeExample | tests/unit_tests/test_litellm_ocr.py:161-178 | The tests' two-page fixture gives one record. Its content is both pages' markdown joined by "\n\n", with `total_pages` 2, the URL as source and the fixture's model. |
| Response.PageModeExample | tests/unit_tests/test_litellm_ocr.py:139-159 | The tests' fixture gives two records, in order. The first has its markdown, page 0, width 612, height 792, the URL as source and the model. The second has its markdown and page 1. |
| Text.JoinSnoc | langchain_litellm/document_loaders/litellm_ocr.py:362-364 | Joining one more part appends one separator and the part. |
| Loader.Load | langchain_litellm/document_loaders/litellm_ocr.py:382-390 | A request failure from `load` counts between 1 and max_retries+1 attempts. That count is one more than the index of the attempt the loop stopped after, and its cause is that attempt's outcome. |
| Loader.StoppingAttemptDecides | langchain_litellm/document_loaders/litellm_ocr.py:382-390 | Whatever failed before it, the attempt the loop stops after decides `load`. A success has its body normalised. A failure is reported with one attempt more than its index and that failure as cause. |
| Loader.PayloadErrorBeforeNetwork | langchain_litellm/document_loaders/litellm_ocr.py:388-389 | A payload error is raised before any request: the result does not depend on the proxy. |
| Loader.FirstResponseDecides | langchain_litellm/document_loaders/litellm_ocr.py:382-390 | After a first successful attempt the result depends only on that body. A shape error is not retried. |
| Loader.TransientFailuresExhaustLoad | langchain_litellm/document_loaders/litellm_ocr.py:382-390 | A proxy that only fails transiently makes `load` fail after exactly max_retries+1 attempts, with the last failure as cause. |
| Loader.LoadSucceedsIff | langchain_litellm/document_loaders/litellm_ocr.py:382-390 | `load` succeeds exactly when the payload builds, some allowed attempt succeeds and its response normalises. |
| Embeddings.Params | langchain_litellm/embeddings/litellm.py:70-86 | No value is `None`. Every non-`None` `model_kwargs` entry is present and overrides the explicit field. Other explicit non-`None` fields are present under their keyword. No other key appears. |
| Embeddings.SetFieldsForwarded | langchain_litellm/embeddings/litellm.py:72-83 | Every set field is sent under its keyword unless `model_kwargs` names it. `request_timeout` is sent as `timeout`, never under its own name. |
| Embeddings.UnsetFieldsOmitted | langchain_litellm/embeddings/litellm.py:86 | Unset fields are left out, not sent as `None`. |
| Embeddings.ModelAndRetriesPresent | langchain_litellm/embeddings/litellm.py:72-86 | `model` and `max_retries` are always present unless `model_kwargs` sets them to `None`. |
| Embeddings.DefaultParams | tests/unit_tests/test_litellm_embeddings.py:57-72 | With only a key set, exactly model, key and `max_retries` 1 are sent. A `model_kwargs` entry is added. |
| Embeddings.EmbedDocuments | langchain_litellm/embeddings/litellm.py:88-101 | `embed_documents` makes one backend call for these texts with these parameters. It succeeds exactly when `model_kwargs` does not also supply `input` and every returned item carries an embedding. It then returns each item's embedding in order. |
| Embeddings.QueryIsFirstOfSingleton | langchain_litellm/embeddings/litellm.py:103-112 | `embed_query(t)` depends only on the backend's answer for `[t]`. It returns the embedding of that answer's first item, and succeeds exactly when that answer is non-empty and well formed. |

## Source and tests disagree

The model follows the code in each case below.

- **Attempt counts.** The loop runs `range(max_retries + 1)`. So with `max_retries=3` an always-refusing proxy gets 4 attempts and 3 sleeps, and with `max_retries=1` it gets 2 attempts (`Retry.AlwaysConnectionErrorCounts`). `tests/unit_tests/test_litellm_ocr.py:510-511` expects 3 calls and 2 sleeps. Line 534 expects 1 call.
- **Status-error message.** `tests/unit_tests/test_litellm_ocr.py:278` expects "HTTP error from LiteLLM proxy". The code's message is "LiteLLM OCR request to <url> failed after N attempts. Status: …" (`Request.StatusMessageShape`). Also, status 500 is transient, so that test's default of 3 retries means 4 attempts.
- **Validation versus dispatch.** The constructor counts sources that are not `None`, but dispatch tests truthiness. So an empty URL, path, base64 text or byte string passes construction and then fails with "No input source provided" (`Payload.EmptySourceFailsAtDispatch`, `Payload.EmptyUrlAcceptedThenRejected`).

## Left out

- HTTP transport (`httpx` clients, connection scoping, the timeout passed to the client): replaced by an attempt-indexed outcome function. The timeout is only validated and stored.
- `time.sleep` / `asyncio.sleep`: the delays are returned as a list instead of slept.
- The asynchronous branch (`aload`, lines 264-311 and 392-401) and its cancellation points: same algorithm as the synchronous branch, modelled once. Suspension and cancellation are concurrency, not modelled.
- `lazy_load`: re-yields the list `load` returns, so it adds nothing to model.
- JSON decoding of the response: the successful outcome carries the decoded object. Top-level bodies that are not JSON objects are not modelled.
- Python error types: errors are datatype constructors (configuration, payload, request, response), not exception classes. The message text is modelled only for the request failure. The configuration and shape errors' messages are not.
- The fallback message branch for an error that is neither a transport nor a status error (lines 254-260): unreachable, because only those two exception types are caught and the loop always runs at least once. The outcome type has no third error kind.
- Floating point: the timeout is a `real`, so a NaN timeout, which `timeout <= 0` lets through in Python, is not modelled.
- Path normalisation by `pathlib.Path`, directories that exist but cannot be read as files, and read errors: the file system is a map from path to contents.
- `mimetypes.guess_type`: an opaque function from file name to optional media type.
- Python's iteration of a non-empty string or object as `pages` is collapsed into a malformed-pages error. The exact exception and the order in which it is raised are not modelled.
- `litellm.embedding` / `litellm.aembedding` and float embedding vectors: an opaque backend returning JSON items. `aembed_documents` / `aembed_query` are the same computation over the async backend.
- The usage-metadata normaliser (`_create_usage_metadata`) and the chat-model message conversion: their implementation is not part of this model, so only their tests could be compared against.
- `langchain_core` `Document` / `BaseLoader`: a plain record of content and metadata map.
