/** The authentication slice of the store (src/store/auth-slice.ts): the
    provider, its credentials and endpoint, and whether a key has ever been
    configured. The default base URL comes from src/constants, which is not
    part of this model; it and the build-time OpenAI key are parameters. */
module AuthSlice {
  import opened Wrappers

  datatype Provider = OpenAIProvider | GeminiAIStudio | GeminiVertexAI

  function ProviderName(p: Provider): string {
    match p
    case OpenAIProvider => "openai"
    case GeminiAIStudio => "gemini-aistudio"
    case GeminiVertexAI => "gemini-vertexai"
  }

  datatype AuthState = AuthState(
    apiKey: Option<string>,
    apiBaseUrl: string,
    apiProvider: Provider,
    geminiApiKey: string,
    geminiVertexProjectId: string,
    geminiVertexLocation: string,
    firstVisit: bool,
    apiKeyConfigured: bool)

  /** The initial slice; a build-time key of "" counts as none. */
  function InitialAuth(envApiKey: string, defaultBaseUrl: string): (r: AuthState)
    ensures r.apiKey.Some? <==> envApiKey != ""
    ensures r.apiKey.Some? ==> r.apiKey.value == envApiKey
    ensures r.apiBaseUrl == defaultBaseUrl
    ensures r.apiProvider == OpenAIProvider && ProviderName(r.apiProvider) == "openai"
    ensures r.geminiApiKey == "" && r.geminiVertexProjectId == "" && r.geminiVertexLocation == "us-central1"
    ensures r.firstVisit && !r.apiKeyConfigured
  {
    AuthState(if envApiKey != "" then Some(envApiKey) else None, defaultBaseUrl, OpenAIProvider, "", "", "us-central1", true, false)
  }

  datatype AuthAction =
    | SetApiKey(apiKey: string)
    | SetApiBaseUrl(apiBaseUrl: string)
    | SetApiProvider(provider: Provider)
    | SetGeminiApiKey(geminiApiKey: string)
    | SetGeminiVertexProjectId(projectId: string)
    | SetGeminiVertexLocation(location: string)
    | SetFirstVisit(firstVisit: bool)
    | SetApiKeyConfigured(configured: bool)

  /** The state after a setter. The two key setters also mark a key as
      configured when the new key is non-empty, and otherwise keep the flag. */
  function Apply(s: AuthState, a: AuthAction): (r: AuthState)
    ensures a.SetApiKey? ==>
      r.apiKey == Some(a.apiKey)
      && r.apiKeyConfigured == (a.apiKey != "" || s.apiKeyConfigured)
      && r.(apiKey := s.apiKey, apiKeyConfigured := s.apiKeyConfigured) == s
    ensures a.SetGeminiApiKey? ==>
      r.geminiApiKey == a.geminiApiKey
      && r.apiKeyConfigured == (a.geminiApiKey != "" || s.apiKeyConfigured)
      && r.(geminiApiKey := s.geminiApiKey, apiKeyConfigured := s.apiKeyConfigured) == s
    ensures a.SetApiBaseUrl? ==> r == s.(apiBaseUrl := a.apiBaseUrl)
    ensures a.SetApiProvider? ==> r == s.(apiProvider := a.provider)
    ensures a.SetGeminiVertexProjectId? ==> r == s.(geminiVertexProjectId := a.projectId)
    ensures a.SetGeminiVertexLocation? ==> r == s.(geminiVertexLocation := a.location)
    ensures a.SetFirstVisit? ==> r == s.(firstVisit := a.firstVisit)
    ensures a.SetApiKeyConfigured? ==> r == s.(apiKeyConfigured := a.configured)
  {
    match a
    case SetApiKey(k) => s.(apiKey := Some(k), apiKeyConfigured := if |k| > 0 then true else s.apiKeyConfigured)
    case SetApiBaseUrl(u) => s.(apiBaseUrl := u)
    case SetApiProvider(p) => s.(apiProvider := p)
    case SetGeminiApiKey(k) => s.(geminiApiKey := k, apiKeyConfigured := if |k| > 0 then true else s.apiKeyConfigured)
    case SetGeminiVertexProjectId(id) => s.(geminiVertexProjectId := id)
    case SetGeminiVertexLocation(l) => s.(geminiVertexLocation := l)
    case SetFirstVisit(f) => s.(firstVisit := f)
    case SetApiKeyConfigured(c) => s.(apiKeyConfigured := c)
  }

  /** Only `setApiKeyConfigured(false)` resets the flag. */
  predicate Resets(a: AuthAction) {
    a == SetApiKeyConfigured(false)
  }

  function ApplyAll(s: AuthState, actions: seq<AuthAction>): AuthState
    decreases |actions|
  {
    if |actions| == 0 then s else Apply(ApplyAll(s, actions[..|actions| - 1]), actions[|actions| - 1])
  }

  /** Once a key is configured it stays so through any run of setters that
      does not include `setApiKeyConfigured(false)`. */
  lemma {:induction false} ConfiguredStays(s: AuthState, actions: seq<AuthAction>)
    requires s.apiKeyConfigured
    requires forall i | 0 <= i < |actions| :: !Resets(actions[i])
    ensures ApplyAll(s, actions).apiKeyConfigured
    decreases |actions|
  {
    if |actions| > 0 {
      ConfiguredStays(s, actions[..|actions| - 1]);
    }
  }

  /** Setting a non-empty key of either provider marks a key as configured,
      and the flag then survives every later setter but a reset. */
  lemma {:induction false} KeyConfiguresUntilReset(s: AuthState, key: AuthAction, later: seq<AuthAction>)
    requires (key.SetApiKey? && key.apiKey != "") || (key.SetGeminiApiKey? && key.geminiApiKey != "")
    requires forall i | 0 <= i < |later| :: !Resets(later[i])
    ensures ApplyAll(s, [key] + later).apiKeyConfigured
    decreases |later|
  {
    if |later| == 0 {
      assert ApplyAll(s, [key]) == Apply(ApplyAll(s, []), key);
    } else {
      var n := |later| - 1;
      assert ([key] + later)[..|[key] + later| - 1] == [key] + later[..n];
      KeyConfiguresUntilReset(s, key, later[..n]);
    }
  }
}
