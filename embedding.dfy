/** The embedding gateway of backend/app/services/embedding_client.py: cloud backends chosen
    by provider name and credential, falling back to a lazily loaded local model. The remote
    calls and the local model's `encode` are oracles. */
module Embedding {
  import opened Common
  import opened Config

  /** One item of a Gemini `embeddings` list; None when it has no `embedding` key. */
  datatype GeminiItem = GeminiItem(embedding: Option<Vector>)

  /** The two keys of a Gemini `embed_content` reply that the client looks at. */
  datatype GeminiReply = GeminiReply(embeddings: Option<seq<GeminiItem>>, embedding: Option<Vector>)

  /** One item of an OpenRouter `data` list; None when it has no `embedding` key. */
  datatype OpenRouterItem = OpenRouterItem(embedding: Option<Vector>)

  /** The `data` key of an OpenRouter reply, when present. */
  datatype OpenRouterReply = OpenRouterReply(data: Option<seq<OpenRouterItem>>)

  /** The outside world of `embed`: each remote call yields None when it raises. */
  datatype EmbedBackends = EmbedBackends(
    gemini: seq<string> -> Option<GeminiReply>,
    openai: seq<string> -> Option<seq<Vector>>,
    openrouter: seq<string> -> Option<OpenRouterReply>,
    encode: string -> Vector)

  datatype EmbedBackend = GeminiEmbed | OpenAIEmbed | OpenRouterEmbed

  /** The local model object, identified by the model name it was loaded with. */
  datatype LocalModel = SentenceTransformer(name: string)

  const LocalModelName: string := "all-MiniLM-L6-v2"

  /** `[item["embedding"] for item in items]`: None when an item has no `embedding` key
      (the KeyError is caught by the branch). */
  function ItemVectors(items: seq<Option<Vector>>): (r: Option<seq<Vector>>)
    ensures r.Some? <==> forall i :: 0 <= i < |items| ==> items[i].Some?
    ensures r.Some? ==> |r.value| == |items| && forall i :: 0 <= i < |items| ==> r.value[i] == items[i].value
  {
    if |items| == 0 then Some([])
    else match (items[0], ItemVectors(items[1..]))
      case (Some(v), Some(vs)) => Some([v] + vs)
      case _ => None
  }

  /** The Gemini branch: the `embeddings` key first, else the `embedding` key as a one-element
      list, else no value (the branch falls through). */
  function GeminiVectors(res: GeminiReply): (r: Option<seq<Vector>>)
  {
    if res.embeddings.Some? then
      ItemVectors(seq(|res.embeddings.value|, i requires 0 <= i < |res.embeddings.value| => res.embeddings.value[i].embedding))
    else if res.embedding.Some? then Some([res.embedding.value])
    else None
  }

  /** The OpenRouter branch: `data.get("data", [])`, so a reply without `data` yields no vectors
      rather than falling through. */
  function OpenRouterVectors(res: OpenRouterReply): (r: Option<seq<Vector>>)
  {
    var items := res.data.GetOr([]);
    ItemVectors(seq(|items|, i requires 0 <= i < |items| => items[i].embedding))
  }

  /** The remote branches in the order `embed` tries them; None when every branch tried
      raised or fell through. */
  function RemoteEmbed(provider: string, apiKey: string, texts: seq<string>, b: EmbedBackends): Option<seq<Vector>> {
    var gemini :=
      if provider in {"gemini", "google"} && apiKey != "" then
        match b.gemini(texts) case Some(res) => GeminiVectors(res) case None => None
      else None;
    if gemini.Some? then gemini
    else
      var openai := if provider == "openai" && apiKey != "" then b.openai(texts) else None;
      if openai.Some? then openai
      else if provider == "openrouter" && apiKey != "" then
        match b.openrouter(texts) case Some(res) => OpenRouterVectors(res) case None => None
      else None
  }

  /** The one backend a provider name and credential select, if any. */
  function EmbedBackendFor(provider: string, apiKey: string): Option<EmbedBackend> {
    if apiKey == "" then None
    else if provider == "gemini" || provider == "google" then Some(GeminiEmbed)
    else if provider == "openai" then Some(OpenAIEmbed)
    else if provider == "openrouter" then Some(OpenRouterEmbed)
    else None
  }

  /** The outcome of calling one backend. */
  function Attempt(backend: EmbedBackend, texts: seq<string>, b: EmbedBackends): Option<seq<Vector>> {
    match backend
    case GeminiEmbed => (match b.gemini(texts) case Some(res) => GeminiVectors(res) case None => None)
    case OpenAIEmbed => b.openai(texts)
    case OpenRouterEmbed => (match b.openrouter(texts) case Some(res) => OpenRouterVectors(res) case None => None)
  }

  /** The local fallback: `[model.encode(t) for t in texts]`. */
  function LocalVectors(encode: string -> Vector, texts: seq<string>): (r: seq<Vector>)
    ensures |r| == |texts|
    ensures forall i :: 0 <= i < |texts| ==> r[i] == encode(texts[i])
  {
    if |texts| == 0 then [] else [encode(texts[0])] + LocalVectors(encode, texts[1..])
  }

  /** What `embed` returns. */
  function EmbedResult(provider: string, apiKey: string, texts: seq<string>, b: EmbedBackends): seq<Vector> {
    match RemoteEmbed(provider, apiKey, texts, b)
    case Some(vs) => vs
    case None => LocalVectors(b.encode, texts)
  }

  /** At most one remote backend is tried: the chain of branches is the single attempt of the
      backend the provider and credential select, or nothing. */
  lemma RemoteDispatch(provider: string, apiKey: string, texts: seq<string>, b: EmbedBackends)
    ensures RemoteEmbed(provider, apiKey, texts, b) ==
      match EmbedBackendFor(provider, apiKey)
      case None => None
      case Some(backend) => Attempt(backend, texts, b)
  {
    assert "gemini" != "openai" && "google" != "openai" && "gemini" != "openrouter" && "google" != "openrouter";
    assert "openai" != "openrouter";
  }

  /** A provider without a remote branch (for example "groq"), or an empty credential, goes
      straight to the local model. */
  lemma NoBackendIsLocal(provider: string, apiKey: string, texts: seq<string>, b: EmbedBackends)
    requires EmbedBackendFor(provider, apiKey).None?
    ensures EmbedResult(provider, apiKey, texts, b) == LocalVectors(b.encode, texts)
  {
    RemoteDispatch(provider, apiKey, texts, b);
  }

  /** A Gemini reply with an `embeddings` list yields one vector per item, in order (when every
      item has an `embedding`); without it, the `embedding` key yields a one-element list; with
      neither key the branch yields nothing and `embed` ends in the local model. */
  lemma GeminiShapes(res: GeminiReply, texts: seq<string>, b: EmbedBackends, apiKey: string)
    ensures res.embeddings.Some? && (forall i :: 0 <= i < |res.embeddings.value| ==> res.embeddings.value[i].embedding.Some?) ==>
      && GeminiVectors(res).Some?
      && |GeminiVectors(res).value| == |res.embeddings.value|
      && forall i :: 0 <= i < |res.embeddings.value| ==> GeminiVectors(res).value[i] == res.embeddings.value[i].embedding.value
    ensures res.embeddings.None? && res.embedding.Some? ==> GeminiVectors(res) == Some([res.embedding.value])
    ensures res.embeddings.None? && res.embedding.None? && apiKey != "" && b.gemini(texts) == Some(res) ==>
      EmbedResult("gemini", apiKey, texts, b) == LocalVectors(b.encode, texts)
  {
    if res.embeddings.Some? {
      var items := res.embeddings.value;
      var opts := seq(|items|, i requires 0 <= i < |items| => items[i].embedding);
      assert forall i :: 0 <= i < |items| ==> opts[i] == items[i].embedding;
    }
  }

  /** An OpenRouter reply without a `data` key yields the empty list, not the local fallback. */
  lemma OpenRouterMissingData(apiKey: string, texts: seq<string>, b: EmbedBackends)
    requires apiKey != "" && b.openrouter(texts) == Some(OpenRouterReply(None))
    ensures EmbedResult("openrouter", apiKey, texts, b) == []
  {
  }

  /** The local model after `embed`: untouched when a remote branch answered, otherwise
      loaded if it was not already. */
  function LocalAfterEmbed(before: Option<LocalModel>, provider: string, apiKey: string,
                           texts: seq<string>, b: EmbedBackends): Option<LocalModel>
  {
    if RemoteEmbed(provider, apiKey, texts, b).Some? || before.Some? then before
    else Some(SentenceTransformer(LocalModelName))
  }

  class EmbeddingClient {
    const provider: string
    const apiKey: string
    var localModel: Option<LocalModel>

    /** `__init__`: the provider name lowercased, the credential, and no local model yet. */
    constructor (settings: Settings)
      ensures provider == Lower(settings.embedProvider) && apiKey == settings.embedApiKey
      ensures localModel == None
    {
      provider := Lower(settings.embedProvider);
      apiKey := settings.embedApiKey;
      localModel := None;
    }

    /** `_ensure_local`: loads the local model the first time, and only then. */
    method EnsureLocal()
      modifies this
      ensures old(localModel).Some? ==> localModel == old(localModel)
      ensures old(localModel).None? ==> localModel == Some(SentenceTransformer(LocalModelName))
      ensures localModel.Some?
    {
      if localModel.Some? {
        return;
      }
      localModel := Some(SentenceTransformer(LocalModelName));
    }

    /** `embed`: the remote branches in turn, then the local model, loaded on first use. */
    method Embed(texts: seq<string>, b: EmbedBackends) returns (vectors: seq<Vector>)
      modifies this
      ensures vectors == EmbedResult(provider, apiKey, texts, b)
      ensures localModel == LocalAfterEmbed(old(localModel), provider, apiKey, texts, b)
    {
      if provider in {"gemini", "google"} && apiKey != "" {
        var res := b.gemini(texts);
        if res.Some? {
          var vs := GeminiVectors(res.value);
          if vs.Some? {
            return vs.value;
          }
        }
      }
      if provider == "openai" && apiKey != "" {
        var res := b.openai(texts);
        if res.Some? {
          return res.value;
        }
      }
      if provider == "openrouter" && apiKey != "" {
        var res := b.openrouter(texts);
        if res.Some? {
          var vs := OpenRouterVectors(res.value);
          if vs.Some? {
            return vs.value;
          }
        }
      }
      EnsureLocal();
      ghost var loaded := localModel;
      vectors := [];
      var i := 0;
      while i < |texts|
        invariant 0 <= i <= |texts|
        invariant localModel == loaded
        invariant vectors == LocalVectors(b.encode, texts[..i])
      {
        LocalSnoc(b.encode, texts[..i], texts[i]);
        assert texts[..i + 1] == texts[..i] + [texts[i]];
        vectors := vectors + [b.encode(texts[i])];
        i := i + 1;
      }
      assert texts[..i] == texts;
    }
  }

  lemma LocalSnoc(encode: string -> Vector, texts: seq<string>, t: string)
    ensures LocalVectors(encode, texts + [t]) == LocalVectors(encode, texts) + [encode(t)]
  {
    var r := LocalVectors(encode, texts + [t]);
    assert |r| == |texts| + 1;
    assert forall i :: 0 <= i < |texts| ==> r[i] == encode(texts[i]) == LocalVectors(encode, texts)[i];
  }

  /** Calling `_ensure_local` twice leaves the state of calling it once. */
  method EnsureLocalIdempotent(client: EmbeddingClient)
    modifies client
    ensures client.localModel == if old(client.localModel).Some? then old(client.localModel) else Some(SentenceTransformer(LocalModelName))
  {
    client.EnsureLocal();
    ghost var once := client.localModel;
    client.EnsureLocal();
    assert client.localModel == once;
  }
}
