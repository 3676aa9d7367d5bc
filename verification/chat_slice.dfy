/** The chat slice of the store (src/store/chat-slice.ts): the chats, the
    selected chat, the generation flag, the last error and the folders.
    Every setter replaces one field of the previous state; `setChats` also
    asks the messages store to drop the messages of chats that went away
    and to write those of the chats it is given. */
module ChatSlice {
  import opened Wrappers
  import opened ChatTypes
  import opened IndexedDbStorage

  datatype ChatSliceState = ChatSliceState(
    messages: seq<Message>,
    chats: Option<seq<Chat>>,
    currentChatIndex: int,
    generating: bool,
    error: string,
    folders: map<string, Folder>)

  /** The state before anything is loaded: no chats, no selected chat. */
  const InitialChatSlice := ChatSliceState([], None, -1, false, "", map[])

  /** The initial slice selects no chat, is not generating, and holds no
      messages, error or folders. */
  lemma InitialChatSliceIsEmpty()
    ensures InitialChatSlice.chats.None? && InitialChatSlice.currentChatIndex < 0
    ensures !InitialChatSlice.generating && InitialChatSlice.error == ""
    ensures InitialChatSlice.messages == [] && InitialChatSlice.folders == map[]
  {
  }

  /** `new Set(ids)` listed in iteration order: each id once, at its first
      occurrence. */
  function FirstOccurrences(ids: seq<string>): (r: seq<string>)
    ensures forall id :: id in r <==> id in ids
    ensures forall i, j | 0 <= i < j < |r| :: r[i] != r[j]
  {
    if |ids| == 0 then []
    else
      var prev := FirstOccurrences(ids[..|ids| - 1]);
      var last := ids[|ids| - 1];
      assert forall id | id in ids :: id in ids[..|ids| - 1] || id == last;
      if last in prev then prev else prev + [last]
  }

  /** The ids of `xs` that `drop` does not contain, in order. */
  function Without(xs: seq<string>, drop: seq<string>): (r: seq<string>)
    ensures forall id :: id in r <==> id in xs && id !in drop
    ensures (forall i, j | 0 <= i < j < |xs| :: xs[i] != xs[j]) ==> forall i, j | 0 <= i < j < |r| :: r[i] != r[j]
  {
    if |xs| == 0 then []
    else
      var prev := Without(xs[..|xs| - 1], drop);
      var last := xs[|xs| - 1];
      assert forall id | id in xs :: id in xs[..|xs| - 1] || id == last;
      if last in drop then prev else prev + [last]
  }

  /** `removedIds`: the ids of the previous chats (none when there were no
      chats) that no next chat carries, each once. */
  function RemovedIds(previous: Option<seq<Chat>>, next: seq<Chat>): (r: seq<string>)
    ensures forall id :: id in r <==> id in Ids(previous.GetOr([])) && id !in Ids(next)
    ensures forall i, j | 0 <= i < j < |r| :: r[i] != r[j]
  {
    Without(FirstOccurrences(Ids(previous.GetOr([]))), Ids(next))
  }

  /** The storage requests `setChats` issues. */
  datatype StorageRequests = StorageRequests(delete: Option<seq<string>>, persist: seq<Chat>)

  /** `setChats`: stores the chats, requests deletion of the removed ids
      only when there are some, and requests writing every chat's messages. */
  function SetChats(s: ChatSliceState, chats: seq<Chat>): (r: (ChatSliceState, StorageRequests))
    ensures r.0.chats == Some(chats) && r.0.(chats := s.chats) == s
    ensures r.1.delete.Some? <==> exists c | c in s.chats.GetOr([]) :: c.id !in Ids(chats)
    ensures r.1.delete.Some? ==> r.1.delete.value == RemovedIds(s.chats, chats)
    ensures r.1.persist == chats
  {
    var removed := RemovedIds(s.chats, chats);
    var prev := s.chats.GetOr([]);
    assert forall c | c in prev :: c.id in Ids(prev);
    assert |removed| > 0 ==> exists c | c in prev :: c.id !in Ids(chats) by {
      if |removed| > 0 {
        assert removed[0] in Ids(prev);
        var i :| 0 <= i < |Ids(prev)| && Ids(prev)[i] == removed[0];
        assert prev[i] in prev;
      }
    }
    (s.(chats := Some(chats)), StorageRequests(if |removed| > 0 then Some(removed) else None, chats))
  }

  /** The messages store after both requests; they are issued without
      waiting, in this order. */
  function ApplyRequests(ms: MessagesStore, req: StorageRequests): MessagesStore {
    var cleared := if req.delete.Some? then DeleteChatMessages(ms, req.delete.value) else ms;
    PersistChatMessages(cleared, req.persist)
  }

  /** The two requests of one `setChats` touch different keys, so they
      commute: either may land first. */
  lemma SetChatsRequestsCommute(s: ChatSliceState, chats: seq<Chat>, ms: MessagesStore)
    ensures var req := SetChats(s, chats).1;
      req.delete.Some? ==>
        DeleteChatMessages(PersistChatMessages(ms, req.persist), req.delete.value)
        == PersistChatMessages(DeleteChatMessages(ms, req.delete.value), req.persist)
  {
    var req := SetChats(s, chats).1;
    if req.delete.Some? {
      var ids := req.delete.value;
      forall id, c | id in ids && c in chats ensures id != c.id {
        assert c.id in Ids(chats);
      }
      DeletePersistCommute(ms, ids, chats);
    }
  }

  /** Deleting ids no chat of the list has commutes with writing the list. */
  lemma DeletePersistCommute(ms: MessagesStore, ids: seq<string>, chats: seq<Chat>)
    requires forall id, c | id in ids && c in chats :: id != c.id
    ensures DeleteChatMessages(PersistChatMessages(ms, chats), ids) == PersistChatMessages(DeleteChatMessages(ms, ids), chats)
  {
    var gone := set id | id in ids :: MessageKey(id);
    forall key | key in MessageKeys(chats) ensures key !in gone {
      var c :| c in chats && key == MessageKey(c.id);
      forall id | id in ids ensures key != MessageKey(id) {
        MessageKeyInjective(id, c.id);
      }
    }
    RemoveUnwrittenCommute(ms, gone, chats);
  }

  /** Removing keys the writes never touch commutes with the writes. */
  lemma {:induction false} RemoveUnwrittenCommute(ms: MessagesStore, gone: set<string>, chats: seq<Chat>)
    requires forall key | key in MessageKeys(chats) :: key !in gone
    ensures PersistChatMessages(ms, chats) - gone == PersistChatMessages(ms - gone, chats)
  {
    if |chats| > 0 {
      var n := |chats| - 1;
      var key := MessageKey(chats[n].id);
      assert chats[n] in chats;
      assert forall c | c in chats[..n] :: c in chats;
      PersistChatMessagesStep(ms, chats);
      PersistChatMessagesStep(ms - gone, chats);
      RemoveUnwrittenCommute(ms, gone, chats[..n]);
      UpdateThenRemove(PersistChatMessages(ms, chats[..n]), gone, key, chats[n].messages);
    }
  }

  lemma UpdateThenRemove<K, V>(m: map<K, V>, gone: set<K>, key: K, v: V)
    requires key !in gone
    ensures m[key := v] - gone == (m - gone)[key := v]
  {
  }

  /** After `setChats` settles, the messages of removed chats are gone and,
      with distinct ids, every chat's messages are stored. */
  lemma SetChatsStorage(s: ChatSliceState, chats: seq<Chat>, ms: MessagesStore)
    requires DistinctIds(chats)
    ensures var after := ApplyRequests(ms, SetChats(s, chats).1);
      (forall c | c in s.chats.GetOr([]) && c.id !in Ids(chats) :: MessageKey(c.id) !in after)
      && HydrateChats(after, chats) == chats
  {
    var req := SetChats(s, chats).1;
    var cleared := if req.delete.Some? then DeleteChatMessages(ms, req.delete.value) else ms;
    PersistThenHydrate(cleared, chats);
    forall c | c in s.chats.GetOr([]) && c.id !in Ids(chats)
      ensures MessageKey(c.id) !in ApplyRequests(ms, req)
    {
      assert c.id in Ids(s.chats.GetOr([]));
      assert c.id in req.delete.value;
      forall d | d in chats ensures MessageKey(c.id) != MessageKey(d.id) {
        MessageKeyInjective(c.id, d.id);
        assert d.id in Ids(chats);
      }
    }
  }

  /** The slice's setters. */
  datatype ChatAction =
    | SetMessages(messages: seq<Message>)
    | SetCurrentChatIndex(index: int)
    | SetGenerating(generating: bool)
    | SetError(error: string)
    | SetFolders(folders: map<string, Folder>)

  /** The state after a setter: its own field replaced, the rest spread
      from the previous state. */
  function Apply(s: ChatSliceState, a: ChatAction): (r: ChatSliceState)
    ensures a.SetMessages? ==> r.messages == a.messages && r.(messages := s.messages) == s
    ensures a.SetCurrentChatIndex? ==> r.currentChatIndex == a.index && r.(currentChatIndex := s.currentChatIndex) == s
    ensures a.SetGenerating? ==> r.generating == a.generating && r.(generating := s.generating) == s
    ensures a.SetError? ==> r.error == a.error && r.(error := s.error) == s
    ensures a.SetFolders? ==> r.folders == a.folders && r.(folders := s.folders) == s
    ensures r.chats == s.chats
  {
    match a
    case SetMessages(m) => s.(messages := m)
    case SetCurrentChatIndex(i) => s.(currentChatIndex := i)
    case SetGenerating(g) => s.(generating := g)
    case SetError(e) => s.(error := e)
    case SetFolders(f) => s.(folders := f)
  }

  /** Setters of different fields commute, and of two setters of one field
      the later wins. */
  lemma ApplyIndependent(s: ChatSliceState, a: ChatAction, b: ChatAction)
    ensures a.SetMessages? != b.SetMessages? || a.SetCurrentChatIndex? != b.SetCurrentChatIndex?
        || a.SetGenerating? != b.SetGenerating? || a.SetError? != b.SetError? || a.SetFolders? != b.SetFolders?
        ==> Apply(Apply(s, a), b) == Apply(Apply(s, b), a)
    ensures a.SetMessages? == b.SetMessages? && a.SetCurrentChatIndex? == b.SetCurrentChatIndex?
        && a.SetGenerating? == b.SetGenerating? && a.SetError? == b.SetError? && a.SetFolders? == b.SetFolders?
        ==> Apply(Apply(s, a), b) == Apply(s, b)
  {
  }
}
