/** The generation gateway of backend/app/services/llm_client.py: one remote backend chosen by
    provider name and credential, and a deterministic summary of the user messages when that
    backend is not configured or raises. Remote outcomes are an oracle. */
module Llm {
  import opened Common
  import opened Config

  /** A chat message `{"role": ..., "content": ...}`. */
  datatype Message = Message(role: string, content: string)

  datatype LlmBackend = GeminiChat | OpenAIChat | GroqChat | OpenRouterChat

  /** The fixed opening line of the fallback text. */
  const FallbackHeader: string := "(Fallback) Berdasarkan konteks tersedia, berikut ringkasan:"

  /** `f"- {m['content']}"` for a user message, nothing for any other role. */
  function UserLine(m: Message): Option<string> {
    if m.role == "user" then Some("- " + m.content) else None
  }

  /** The heuristic fallback: the header, a newline, then the user messages' lines joined by
      a blank line. */
  function Fallback(messages: seq<Message>): (r: string)
    ensures |r| > |FallbackHeader| && r[..|FallbackHeader| + 1] == FallbackHeader + "\n"
  {
    FallbackHeader + "\n" + Join(FilterMap(messages, UserLine), "\n\n")
  }

  /** The full prompt sent to every remote backend: the system prompt first. */
  function FullPrompt(systemPrompt: string, messages: seq<Message>): (r: seq<Message>)
    ensures |r| == |messages| + 1 && r[0] == Message("system", systemPrompt) && r[1..] == messages
  {
    [Message("system", systemPrompt)] + messages
  }

  /** The one backend a provider name and credential select, if any. */
  function LlmBackendFor(provider: string, apiKey: string): Option<LlmBackend> {
    if apiKey == "" then None
    else if provider == "gemini" || provider == "google" then Some(GeminiChat)
    else if provider == "openai" then Some(OpenAIChat)
    else if provider == "groq" then Some(GroqChat)
    else if provider == "openrouter" then Some(OpenRouterChat)
    else None
  }

  class LLMClient {
    const provider: string
    const apiKey: string

    /** `__init__`: the provider name lowercased and the credential. */
    constructor (settings: Settings)
      ensures provider == Lower(settings.llmProvider) && apiKey == settings.llmApiKey
    {
      provider := Lower(settings.llmProvider);
      apiKey := settings.llmApiKey;
    }

    /** `chat`: the guarded branches in source order, each returning the backend's text when
        the call succeeds, then the fallback. `outcome(b, prompt)` is None when backend b raises.
        At most one backend is tried, and it is given the system prompt ahead of the caller's
        messages: its text is returned unchanged when the call succeeds, and the fallback when
        no backend is selected or the selected one raises. */
    function Chat(systemPrompt: string, messages: seq<Message>,
                  outcome: (LlmBackend, seq<Message>) -> Option<string>): (r: string)
      ensures LlmBackendFor(provider, apiKey).None? ==> r == Fallback(messages)
      ensures LlmBackendFor(provider, apiKey).Some? ==>
        r == outcome(LlmBackendFor(provider, apiKey).value, [Message("system", systemPrompt)] + messages).GetOr(Fallback(messages))
    {
      assert "gemini" != "openai" && "google" != "openai" && "gemini" != "groq" && "google" != "groq";
      assert "gemini" != "openrouter" && "google" != "openrouter";
      assert "openai" != "groq" && "openai" != "openrouter" && "groq" != "openrouter";
      var prompt := FullPrompt(systemPrompt, messages);
      var gemini := if provider in {"gemini", "google"} && apiKey != "" then outcome(GeminiChat, prompt) else None;
      var openai := if provider == "openai" && apiKey != "" then outcome(OpenAIChat, prompt) else None;
      var groq := if provider == "groq" && apiKey != "" then outcome(GroqChat, prompt) else None;
      var openrouter := if provider == "openrouter" && apiKey != "" then outcome(OpenRouterChat, prompt) else None;
      if gemini.Some? then gemini.value
      else if openai.Some? then openai.value
      else if groq.Some? then groq.value
      else if openrouter.Some? then openrouter.value
      else Fallback(messages)
    }
  }

  /** The provider name reaches the dispatch lowercased, so two names that differ only in the
      case of their letters select the same backend: any casing of "gemini", such as "Gemini"
      or "GEMINI", selects Gemini when a credential is set. */
  lemma {:induction false} ProviderCaseInsensitive(p: string, q: string, apiKey: string)
    requires |p| == |q| && forall i :: 0 <= i < |p| ==> LowerChar(p[i]) == LowerChar(q[i])
    ensures LlmBackendFor(Lower(p), apiKey) == LlmBackendFor(Lower(q), apiKey)
    ensures apiKey != "" && Lower(q) == "gemini" ==> LlmBackendFor(Lower(p), apiKey) == Some(GeminiChat)
  {
    assert Lower(p) == Lower(q);
  }

  /** The fallback keeps exactly the user messages, in order: its body is the join of the lines
      of the user messages at increasing positions, and a message is among them exactly when
      its role is "user". */
  lemma FallbackUserLines(messages: seq<Message>)
    ensures var lines := FilterMap(messages, UserLine);
      var ps := KeptPositions(messages, UserLine);
      && Fallback(messages) == FallbackHeader + "\n" + Join(lines, "\n\n")
      && |lines| == |ps| <= |messages|
      && (forall j :: 0 <= j < |ps| ==> ps[j] < |messages| && messages[ps[j]].role == "user" && lines[j] == "- " + messages[ps[j]].content)
      && (forall j, k :: 0 <= j < k < |ps| ==> ps[j] < ps[k])
      && (forall i :: 0 <= i < |messages| ==> (messages[i].role == "user" <==> i in ps))
  {
    FilterMapPositions(messages, UserLine);
    var lines := FilterMap(messages, UserLine);
    var ps := KeptPositions(messages, UserLine);
    forall j | 0 <= j < |ps|
      ensures messages[ps[j]].role == "user" && lines[j] == "- " + messages[ps[j]].content
    {
      assert UserLine(messages[ps[j]]) == Some(lines[j]);
    }
    forall i | 0 <= i < |messages|
      ensures messages[i].role == "user" <==> i in ps
    {
      assert UserLine(messages[i]).Some? <==> i in ps;
    }
  }

  /** Appending a message extends the fallback by one blank-line-separated line when it is a
      user message (after an earlier user message), and leaves it unchanged otherwise. */
  lemma {:induction false} FallbackAppend(messages: seq<Message>, m: Message)
    ensures m.role != "user" ==> Fallback(messages + [m]) == Fallback(messages)
    ensures m.role == "user" && |FilterMap(messages, UserLine)| > 0 ==>
      Fallback(messages + [m]) == Fallback(messages) + "\n\n- " + m.content
    ensures m.role == "user" && |FilterMap(messages, UserLine)| == 0 ==>
      Fallback(messages + [m]) == FallbackHeader + "\n- " + m.content
  {
    FilterMapSnoc(messages, m, UserLine);
    var lines := FilterMap(messages, UserLine);
    if m.role == "user" {
      if |lines| > 0 {
        JoinSnoc(lines, "- " + m.content, "\n\n");
      } else {
        assert lines + ["- " + m.content] == ["- " + m.content];
      }
    }
  }

  /** With no user message the fallback is the header and a newline. */
  lemma FallbackWithoutUsers(messages: seq<Message>)
    requires forall i :: 0 <= i < |messages| ==> messages[i].role != "user"
    ensures Fallback(messages) == FallbackHeader + "\n"
  {
    FilterMapPositions(messages, UserLine);
  }
}
