/** What the store persists (src/store/store.ts): chats without their
    messages, which live in the messages store, and a fixed list of fields
    of the other slices. The input, config, prompt, toast and custom-model
    slices are not part of this model; their fields are an untyped map from
    field name to value. */
module Store {
  import opened Wrappers
  import opened ChatTypes
  import opened JsonValues
  import opened IndexedDbStorage
  import opened ChatSlice
  import opened AuthSlice

  datatype StoreState = StoreState(chat: ChatSliceState, auth: AuthState, settings: map<string, Json>)

  /** `stripChatMessages`: every chat with an empty message list; a missing
      list of chats stays missing. */
  function StripChatMessages(chats: Option<seq<Chat>>): (r: Option<seq<Chat>>)
    ensures r.Some? <==> chats.Some?
    ensures r.Some? ==> |r.value| == |chats.value|
    ensures r.Some? ==> forall i | 0 <= i < |chats.value| ::
      r.value[i].messages == [] && r.value[i].(messages := chats.value[i].messages) == chats.value[i]
  {
    match chats
    case None => None
    case Some(cs) => Some(seq(|cs|, i requires 0 <= i < |cs| => cs[i].(messages := [])))
  }

  /** Stripping twice is stripping once. */
  lemma StripChatMessagesIdempotent(chats: Option<seq<Chat>>)
    ensures StripChatMessages(StripChatMessages(chats)) == StripChatMessages(chats)
  {
    if chats.Some? {
      var once := StripChatMessages(chats).value;
      var twice := StripChatMessages(Some(once)).value;
      assert |twice| == |once|;
      forall i | 0 <= i < |once| ensures twice[i] == once[i] {
        assert twice[i] == once[i].(messages := []);
      }
      assert twice == once;
    }
  }

  /** Stripped chats whose messages were written to the messages store read
      back as the original chats, provided their ids are distinct. */
  lemma StripThenHydrate(ms: MessagesStore, chats: seq<Chat>)
    requires DistinctIds(chats)
    ensures HydrateChats(PersistChatMessages(ms, chats), StripChatMessages(Some(chats)).value) == chats
  {
    var stripped := StripChatMessages(Some(chats)).value;
    var written := PersistChatMessages(ms, chats);
    forall i | 0 <= i < |chats| ensures Hydrated(written, stripped[i]) == chats[i] {
      assert LastOfId(chats, i);
      PersistChatMessagesLast(ms, chats, i);
    }
  }

  /** The fields of the other slices that are persisted. */
  const PersistedSettings: set<string> := {
    "apiEndpoint", "theme", "autoTitle", "advancedMode", "prompts", "defaultChatConfig",
    "defaultSystemMessage", "hideMenuOptions", "hideSideMenu", "enterToSubmit", "inlineLatex",
    "markdownMode", "totalTokenUsed", "countTotalTokens", "displayChatSize", "menuWidth",
    "defaultImageDetail", "autoScroll", "shareGPTEnabled", "customModels"}

  datatype PartializedState = PartializedState(
    chats: Option<seq<Chat>>,
    currentChatIndex: int,
    apiKey: Option<string>,
    apiKeyConfigured: bool,
    firstVisit: bool,
    folders: map<string, Folder>,
    settings: map<string, Json>)

  /** `createPartializedState` */
  function Partialize(s: StoreState, includeMessages: bool): (r: PartializedState)
    ensures r.chats == if includeMessages then s.chat.chats else StripChatMessages(s.chat.chats)
    ensures r.currentChatIndex == s.chat.currentChatIndex && r.folders == s.chat.folders
    ensures r.apiKey == s.auth.apiKey && r.apiKeyConfigured == s.auth.apiKeyConfigured
    ensures r.firstVisit == s.auth.firstVisit
    ensures forall k :: k in r.settings <==> k in PersistedSettings && k in s.settings
    ensures forall k | k in r.settings :: r.settings[k] == s.settings[k]
  {
    PartializedState(
      if includeMessages then s.chat.chats else StripChatMessages(s.chat.chats),
      s.chat.currentChatIndex, s.auth.apiKey, s.auth.apiKeyConfigured, s.auth.firstVisit,
      s.chat.folders,
      map k | k in PersistedSettings && k in s.settings :: s.settings[k])
  }

  /** The persisted state does not depend on the transient fields: the
      generation flag, the error and the slice's message list. */
  lemma PartializeIgnoresTransient(s: StoreState, includeMessages: bool, generating: bool, error: string, messages: seq<Message>)
    ensures Partialize(s.(chat := s.chat.(generating := generating, error := error, messages := messages)), includeMessages)
         == Partialize(s, includeMessages)
  {
  }

  /** Nor does it carry the provider, the OpenAI base URL or any Gemini
      setting of the authentication slice. */
  lemma PartializeOmitsProviderSettings(s: StoreState, includeMessages: bool, auth: AuthState)
    requires auth.apiKey == s.auth.apiKey && auth.apiKeyConfigured == s.auth.apiKeyConfigured
    requires auth.firstVisit == s.auth.firstVisit
    ensures Partialize(s.(auth := auth), includeMessages) == Partialize(s, includeMessages)
  {
  }

  /** Without messages and with them, the partialized states differ only in
      the chats' messages. */
  lemma PartializeWithAndWithout(s: StoreState)
    ensures Partialize(s, false) == Partialize(s, true).(chats := StripChatMessages(Partialize(s, true).chats))
  {
  }
}
