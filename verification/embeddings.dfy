/** The embeddings adapter: the keyword arguments it forwards to the
    embedding backend, and the query/document entry points over it. */
module Embeddings {
  import opened Wrappers
  import opened Json

  /** The adapter's configuration fields; `None` is an unset optional field. */
  datatype EmbeddingsConfig = EmbeddingsConfig(
    model: string,
    apiKey: Option<string>,
    apiBase: Option<string>,
    apiVersion: Option<string>,
    customLlmProvider: Option<string>,
    organization: Option<string>,
    requestTimeout: Option<Json>,
    maxRetries: int,
    extraHeaders: Option<map<string, string>>,
    dimensions: Option<int>,
    encodingFormat: Option<string>,
    modelKwargs: map<string, Json>)

  /** The field defaults: the model name and one retry, nothing else set. */
  function DefaultConfig(): EmbeddingsConfig {
    EmbeddingsConfig("openai/text-embedding-3-small", None, None, None, None, None, None, 1, None, None, None, map[])
  }

  function Str(o: Option<string>): Json {
    if o.Some? then JStr(o.value) else JNull
  }

  function HeadersJson(o: Option<map<string, string>>): Json {
    if o.Some? then JObj(map k | k in o.value :: JStr(o.value[k])) else JNull
  }

  /** The keyword names of the explicit fields (`request_timeout` goes out as `timeout`). */
  const FieldKeys: set<string> := {
    "model", "api_key", "api_base", "api_version", "custom_llm_provider", "organization",
    "timeout", "max_retries", "extra_headers", "dimensions", "encoding_format"}

  /** The value of the field sent under keyword `key`, `None` as `JNull`. */
  function FieldValue(c: EmbeddingsConfig, key: string): Json {
    if key == "model" then JStr(c.model)
    else if key == "api_key" then Str(c.apiKey)
    else if key == "api_base" then Str(c.apiBase)
    else if key == "api_version" then Str(c.apiVersion)
    else if key == "custom_llm_provider" then Str(c.customLlmProvider)
    else if key == "organization" then Str(c.organization)
    else if key == "timeout" then (if c.requestTimeout.Some? then c.requestTimeout.value else JNull)
    else if key == "max_retries" then JInt(c.maxRetries)
    else if key == "extra_headers" then HeadersJson(c.extraHeaders)
    else if key == "dimensions" then (if c.dimensions.Some? then JInt(c.dimensions.value) else JNull)
    else Str(c.encodingFormat)
  }

  /** The explicit part of the keyword dictionary, before `model_kwargs`. */
  function Explicit(c: EmbeddingsConfig): map<string, Json> {
    map k | k in FieldKeys :: FieldValue(c, k)
  }

  /** `_get_litellm_params`: the explicit fields, overridden by
      `model_kwargs`, with every `None` dropped. */
  function Params(c: EmbeddingsConfig): (r: map<string, Json>)
    ensures forall k :: k in r ==> r[k] != JNull
    ensures forall k :: k in c.modelKwargs && c.modelKwargs[k] != JNull ==> k in r && r[k] == c.modelKwargs[k]
    ensures forall k :: k in Explicit(c) && k !in c.modelKwargs && Explicit(c)[k] != JNull ==> k in r && r[k] == Explicit(c)[k]
    ensures forall k :: k in r ==> k in c.modelKwargs || k in Explicit(c)
    ensures forall k :: k in c.modelKwargs && c.modelKwargs[k] == JNull ==> k !in r
    ensures forall k :: k in r ==> r[k] == if k in c.modelKwargs then c.modelKwargs[k] else Explicit(c)[k]
  {
    var merged := Explicit(c) + c.modelKwargs;
    map k | k in merged && merged[k] != JNull :: merged[k]
  }

  /** Every set field reaches the backend under its keyword unless
      `model_kwargs` names that keyword; `request_timeout` travels as
      `timeout`, never under its own name. */
  lemma SetFieldsForwarded(c: EmbeddingsConfig)
    ensures var r := Params(c);
      && (c.apiKey.Some? && "api_key" !in c.modelKwargs ==> r["api_key"] == JStr(c.apiKey.value))
      && (c.apiBase.Some? && "api_base" !in c.modelKwargs ==> r["api_base"] == JStr(c.apiBase.value))
      && (c.apiVersion.Some? && "api_version" !in c.modelKwargs ==> r["api_version"] == JStr(c.apiVersion.value))
      && (c.customLlmProvider.Some? && "custom_llm_provider" !in c.modelKwargs ==>
            r["custom_llm_provider"] == JStr(c.customLlmProvider.value))
      && (c.organization.Some? && "organization" !in c.modelKwargs ==> r["organization"] == JStr(c.organization.value))
      && (c.requestTimeout.Some? && c.requestTimeout.value != JNull && "timeout" !in c.modelKwargs ==>
            r["timeout"] == c.requestTimeout.value)
      && (c.dimensions.Some? && "dimensions" !in c.modelKwargs ==> r["dimensions"] == JInt(c.dimensions.value))
      && (c.encodingFormat.Some? && "encoding_format" !in c.modelKwargs ==> r["encoding_format"] == JStr(c.encodingFormat.value))
      && (c.extraHeaders.Some? && "extra_headers" !in c.modelKwargs ==> r["extra_headers"].JObj?)
      && ("request_timeout" in r <==> "request_timeout" in c.modelKwargs && c.modelKwargs["request_timeout"] != JNull)
  {
  }

  /** An unset field is left out rather than sent as `None`. */
  lemma UnsetFieldsOmitted(c: EmbeddingsConfig)
    ensures var r := Params(c);
      && (c.apiKey.None? && "api_key" !in c.modelKwargs ==> "api_key" !in r)
      && (c.apiBase.None? && "api_base" !in c.modelKwargs ==> "api_base" !in r)
      && (c.apiVersion.None? && "api_version" !in c.modelKwargs ==> "api_version" !in r)
      && (c.customLlmProvider.None? && "custom_llm_provider" !in c.modelKwargs ==> "custom_llm_provider" !in r)
      && (c.organization.None? && "organization" !in c.modelKwargs ==> "organization" !in r)
      && (c.requestTimeout.None? && "timeout" !in c.modelKwargs ==> "timeout" !in r)
      && (c.extraHeaders.None? && "extra_headers" !in c.modelKwargs ==> "extra_headers" !in r)
      && (c.dimensions.None? && "dimensions" !in c.modelKwargs ==> "dimensions" !in r)
      && (c.encodingFormat.None? && "encoding_format" !in c.modelKwargs ==> "encoding_format" !in r)
  {
  }

  /** `model` and `max_retries` are always sent, unless `model_kwargs`
      sets them to `None`. */
  lemma ModelAndRetriesPresent(c: EmbeddingsConfig)
    ensures "model" in Params(c) <==> !("model" in c.modelKwargs && c.modelKwargs["model"] == JNull)
    ensures "max_retries" in Params(c) <==> !("max_retries" in c.modelKwargs && c.modelKwargs["max_retries"] == JNull)
    ensures "model" !in c.modelKwargs ==> Params(c)["model"] == JStr(c.model)
    ensures "max_retries" !in c.modelKwargs ==> Params(c)["max_retries"] == JInt(c.maxRetries)
  {
  }

  /** With only a key set, exactly the model, the key and one retry go out;
      a `model_kwargs` entry is added alongside. */
  lemma DefaultParams()
    ensures Params(DefaultConfig().(apiKey := Some("fake"))) ==
      map["model" := JStr("openai/text-embedding-3-small"), "api_key" := JStr("fake"), "max_retries" := JInt(1)]
    ensures var c := DefaultConfig().(apiKey := Some("fake"), modelKwargs := map["user" := JStr("test-user")]);
      Params(c)["user"] == JStr("test-user")
  {
    var c := DefaultConfig().(apiKey := Some("fake"));
    var expected := map["model" := JStr("openai/text-embedding-3-small"), "api_key" := JStr("fake"), "max_retries" := JInt(1)];
    assert Params(c).Keys == expected.Keys;
  }

  datatype EmbedError =
    | DuplicateInput     // `model_kwargs` supplied `input`, which the call also passes
    | MissingEmbedding   // a response item without an `embedding` entry
    | NoEmbedding        // the backend returned no item for the query

  /** The embedding backend (an opaque collaborator): the items of its
      response's `data` list for these texts and keyword arguments. */
  type Backend = (seq<string>, map<string, Json>) -> seq<Json>

  function EmbeddingOf(item: Json): Option<Json> {
    if item.JObj? && "embedding" in item.fields then Some(item.fields["embedding"]) else None
  }

  /** `embed_documents`: one backend call with `input=texts` and the
      parameters, then each item's `embedding`, in order. */
  function EmbedDocuments(c: EmbeddingsConfig, backend: Backend, texts: seq<string>): (r: Result<seq<Json>, EmbedError>)
    ensures "input" in Params(c) ==> r == Failure(DuplicateInput)
    ensures var items := backend(texts, Params(c));
      r.Success? ==> |r.value| == |items| && forall i :: 0 <= i < |items| ==> EmbeddingOf(items[i]) == Some(r.value[i])
    ensures var items := backend(texts, Params(c));
      r.Success? <==> "input" !in Params(c) && forall i :: 0 <= i < |items| ==> EmbeddingOf(items[i]).Some?
  {
    var params := Params(c);
    if "input" in params then Failure(DuplicateInput)
    else
      var items := backend(texts, params);
      if forall i :: 0 <= i < |items| ==> EmbeddingOf(items[i]).Some? then
        Success(seq(|items|, i requires 0 <= i < |items| => EmbeddingOf(items[i]).value))
      else Failure(MissingEmbedding)
  }

  /** `embed_query`: element 0 of `embed_documents([text])`. */
  function EmbedQuery(c: EmbeddingsConfig, backend: Backend, text: string): Result<Json, EmbedError> {
    var vectors :- EmbedDocuments(c, backend, [text]);
    if |vectors| == 0 then Failure(NoEmbedding) else Success(vectors[0])
  }

  /** A query asks the backend about the one-element list `[text]` only,
      and returns the embedding of the first item of that answer. */
  lemma QueryIsFirstOfSingleton(c: EmbeddingsConfig, b1: Backend, b2: Backend, text: string)
    requires b1([text], Params(c)) == b2([text], Params(c))
    ensures EmbedQuery(c, b1, text) == EmbedQuery(c, b2, text)
    ensures var items := b1([text], Params(c)); var r := EmbedQuery(c, b1, text);
      r.Success? ==> 0 < |items| && EmbeddingOf(items[0]) == Some(r.value)
    ensures var items := b1([text], Params(c));
      EmbedQuery(c, b1, text).Success? <==>
        "input" !in Params(c) && 0 < |items| && forall i :: 0 <= i < |items| ==> EmbeddingOf(items[i]).Some?
  {
  }
}
