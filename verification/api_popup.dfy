/** The first-run key dialog (src/components/ApiPopup/ApiPopup.tsx): the
    user picks a provider and types a key into a draft; confirming commits
    the draft to the authentication slice only when the key that provider
    needs is non-empty. The translated warning text is a parameter. */
module ApiPopup {
  import opened Wrappers
  import opened AuthSlice

  /** `isGemini`: the two Gemini providers, and no other. */
  predicate IsGemini(p: Provider) {
    p == GeminiAIStudio || p == GeminiVertexAI
  }

  lemma IsGeminiByName(p: Provider)
    ensures IsGemini(p) <==> ProviderName(p) == "gemini-aistudio" || ProviderName(p) == "gemini-vertexai"
    ensures !IsGemini(p) <==> ProviderName(p) == "openai"
  {
  }

  /** The dialog's own state: the draft provider and keys, the error shown
      and whether the dialog is open. */
  datatype Popup = Popup(provider: Provider, apiKey: string, geminiApiKey: string, error: string, open: bool)

  /** The draft as the dialog starts: the slice's provider and keys, a
      missing OpenAI key shown as "". */
  function InitialPopup(auth: AuthState): (p: Popup)
    ensures p.provider == auth.apiProvider && p.geminiApiKey == auth.geminiApiKey
    ensures p.apiKey == auth.apiKey.GetOr("")
    ensures p.error == "" && !p.open
  {
    Popup(auth.apiProvider, auth.apiKey.GetOr(""), auth.geminiApiKey, "", false)
  }

  /** The key confirming checks: the Gemini key for a Gemini provider, the
      OpenAI key otherwise. */
  function CheckedKey(p: Popup): (k: string)
    ensures IsGemini(p.provider) ==> k == p.geminiApiKey
    ensures !IsGemini(p.provider) ==> k == p.apiKey
  {
    if IsGemini(p.provider) then p.geminiApiKey else p.apiKey
  }

  /** The setters a successful confirm calls, in order. */
  function Commits(p: Popup): (r: seq<AuthAction>)
    ensures |r| == 3 && r[0] == SetApiProvider(p.provider) && r[2] == SetApiKeyConfigured(true)
    ensures r[1] == if IsGemini(p.provider) then SetGeminiApiKey(p.geminiApiKey) else SetApiKey(p.apiKey)
  {
    [SetApiProvider(p.provider),
     if IsGemini(p.provider) then SetGeminiApiKey(p.geminiApiKey) else SetApiKey(p.apiKey),
     SetApiKeyConfigured(true)]
  }

  /** `handleConfirm`: with an empty key, show the warning and change nothing
      else; otherwise clear the error, commit the provider and the one key it
      uses, mark a key as configured and close the dialog. */
  function HandleConfirm(auth: AuthState, p: Popup, warning: string): (r: (AuthState, Popup))
    ensures CheckedKey(p) == "" ==> r.0 == auth && r.1 == p.(error := warning)
    ensures CheckedKey(p) != "" ==>
      r.1 == p.(error := "", open := false)
      && r.0.apiProvider == p.provider && r.0.apiKeyConfigured
      && (IsGemini(p.provider) ==> r.0.geminiApiKey == p.geminiApiKey && r.0.apiKey == auth.apiKey)
      && (!IsGemini(p.provider) ==> r.0.apiKey == Some(p.apiKey) && r.0.geminiApiKey == auth.geminiApiKey)
      && r.0.(apiProvider := auth.apiProvider, apiKey := auth.apiKey, geminiApiKey := auth.geminiApiKey,
              apiKeyConfigured := auth.apiKeyConfigured) == auth
  {
    if |CheckedKey(p)| == 0 then (auth, p.(error := warning))
    else
      var actions := Commits(p);
      (Apply(Apply(Apply(auth, actions[0]), actions[1]), actions[2]), p.(error := "", open := false))
  }

  /** The effect that runs once the store has hydrated (and again whenever
      the configured flag changes): the first visit is over, and the dialog
      is open exactly when no key is configured. */
  function AfterHydration(auth: AuthState, p: Popup): (r: (AuthState, Popup))
    ensures r.0 == auth.(firstVisit := false)
    ensures r.1 == p.(open := !auth.apiKeyConfigured)
  {
    (Apply(auth, SetFirstVisit(false)), p.(open := !auth.apiKeyConfigured))
  }

  /** A successful confirm is final: the effect it re-triggers leaves the
      dialog closed. A rejected one leaves the dialog as the effect set it. */
  lemma ConfirmSettles(auth: AuthState, p: Popup, warning: string)
    ensures var (a, q) := HandleConfirm(auth, p, warning);
      CheckedKey(p) != "" ==> !AfterHydration(a, q).1.open
    ensures var (a, q) := HandleConfirm(auth, p, warning);
      CheckedKey(p) == "" ==> AfterHydration(a, q).1.open == !auth.apiKeyConfigured
  {
  }

  /** Confirming the untouched initial draft succeeds exactly when the slice
      already holds a non-empty key for its provider, and then changes no
      credential: it only marks the key as configured. */
  lemma ConfirmInitialDraft(auth: AuthState, warning: string)
    ensures var p := InitialPopup(auth);
      CheckedKey(p) != "" <==>
        if IsGemini(auth.apiProvider) then auth.geminiApiKey != "" else auth.apiKey.Some? && auth.apiKey.value != ""
    ensures var p := InitialPopup(auth);
      CheckedKey(p) != "" ==> HandleConfirm(auth, p, warning).0 == auth.(apiKeyConfigured := true)
  {
  }

  /** Switching the draft provider between two Gemini providers does not
      change which key is checked. */
  lemma GeminiProvidersShareKey(p: Popup)
    requires IsGemini(p.provider)
    ensures CheckedKey(p.(provider := GeminiAIStudio)) == CheckedKey(p.(provider := GeminiVertexAI))
  {
  }
}
