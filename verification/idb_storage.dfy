/** Persistence on IndexedDB (src/store/storage/IndexedDbStorage.ts), with
    each object store taken as a plain key-value map.

    The `persist` store holds one entry per top-level field of a persisted
    state under `name:key`, and a meta record `{version, keys}` under
    `name:__meta`. The `messages` store holds each chat's messages under
    `chat-messages:<id>`, so that the persisted state can carry chats
    without their messages. */
module IndexedDbStorage {
  import opened Wrappers
  import opened Strings
  import opened ChatTypes
  import opened JsonValues

  const MessageKeyPrefix := "chat-messages:"
  const MetaSuffix := "__meta"

  /** `getMessageKey` */
  function MessageKey(chatId: string): (r: string)
    ensures StartsWith(r, MessageKeyPrefix) && r[|MessageKeyPrefix|..] == chatId
  {
    MessageKeyPrefix + chatId
  }

  /** `getPersistKey`: a field of the state stored under `name`. */
  function PersistKey(name: string, key: string): (r: string)
    ensures |r| == |name| + 1 + |key|
    ensures r[..|name|] == name && r[|name|] == ':' && r[|name| + 1..] == key
  {
    name + ":" + key
  }

  /** `getMetaKey`: the meta record of the state stored under `name`. It is
      the field key `__meta` of that state. */
  function MetaKey(name: string): (r: string)
    ensures r == PersistKey(name, MetaSuffix)
  {
    name + ":" + MetaSuffix
  }

  /** Different chats' messages live under different keys. */
  lemma MessageKeyInjective(a: string, b: string)
    ensures MessageKey(a) == MessageKey(b) <==> a == b
  {
    assert a == MessageKey(a)[|MessageKeyPrefix|..];
    assert b == MessageKey(b)[|MessageKeyPrefix|..];
  }

  /** Within one state, different fields live under different keys. */
  lemma PersistKeyInjective(name: string, a: string, b: string)
    ensures PersistKey(name, a) == PersistKey(name, b) <==> a == b
  {
    assert a == PersistKey(name, a)[|name| + 1..];
    assert b == PersistKey(name, b)[|name| + 1..];
  }

  /** The keys of the persist store that belong to the state under `name`. */
  predicate InNamespace(key: string, name: string) {
    |key| > |name| && key[..|name|] == name && key[|name|] == ':'
  }

  predicate HasColon(s: string) {
    exists i :: 0 <= i < |s| && s[i] == ':'
  }

  /** Two states whose names contain no colon never share a key. */
  lemma NamespacesDisjoint(n1: string, n2: string, key: string)
    requires !HasColon(n1) && !HasColon(n2) && n1 != n2
    requires InNamespace(key, n1)
    ensures !InNamespace(key, n2)
  {
    if |n2| == |n1| {
      assert key[..|n2|] == n1;
    } else if |n1| < |n2| {
      if |key| > |n2| {
        assert key[..|n2|][|n1|] == key[|n1|] == ':';
        assert n2[|n1|] != ':';
      }
    } else {
      assert key[|n2|] == n1[|n2|];
      assert n1[|n2|] != ':';
    }
  }

  /** An entry of the persist store: a meta record or a stored value. */
  datatype Entry = Meta(version: real, keys: seq<string>) | Value(v: Json)

  type PersistStore = map<string, Entry>

  /** The value `get` resolves to: a meta record reads back as the plain
      object it was written as. */
  function EntryJson(e: Entry): Json {
    match e
    case Value(v) => v
    case Meta(version, keys) =>
      Obj(map["version" := Num(version), "keys" := Arr(seq(|keys|, i requires 0 <= i < |keys| => Str(keys[i])))])
  }

  /** `get(key)`: `None` for `undefined`. */
  function Read(db: PersistStore, key: string): (r: Option<Json>)
    ensures r.Some? <==> key in db
  {
    if key in db then Some(EntryJson(db[key])) else None
  }

  /** What `getItem` resolves to: the state, each field possibly
      `undefined`, and its version. */
  datatype StorageValue = StorageValue(state: map<string, Option<Json>>, version: real)

  /** `getItem`: `null` when no meta record is stored. A plain value under
      the meta key that is falsy reads as no meta record; a truthy one is
      taken as a failed read (the source reads a value with an array `keys`
      property as a meta record, and throws on any other truthy value). */
  function GetItem(db: PersistStore, name: string): (r: Result<Option<StorageValue>>)
    ensures MetaKey(name) !in db ==> r == Success(None)
    ensures r.Success? && r.value.Some? ==>
      MetaKey(name) in db && db[MetaKey(name)].Meta?
      && r.value.value.version == db[MetaKey(name)].version
      && r.value.value.state.Keys == set k | k in db[MetaKey(name)].keys
      && forall k | k in r.value.value.state :: r.value.value.state[k] == Read(db, PersistKey(name, k))
    ensures r.Failure? <==> MetaKey(name) in db && db[MetaKey(name)].Value? && Truthy(Some(db[MetaKey(name)].v))
  {
    var metaKey := MetaKey(name);
    if metaKey !in db then Success(None)
    else match db[metaKey]
      case Value(v) => if Truthy(Some(v)) then Failure("meta.keys is not an array") else Success(None)
      case Meta(version, keys) =>
        Success(Some(StorageValue(map k | k in keys :: Read(db, PersistKey(name, k)), version)))
  }

  /** Stores each listed field of `state`, one write after another. */
  function WriteFields(db: PersistStore, name: string, keys: seq<string>, state: map<string, Json>): (r: PersistStore)
    requires forall k | k in keys :: k in state
    ensures forall k | k in keys :: PersistKey(name, k) in r && r[PersistKey(name, k)] == Value(state[k])
    ensures forall key | !(exists k | k in keys :: key == PersistKey(name, k)) ::
      (key in r <==> key in db) && (key in db ==> r[key] == db[key])
  {
    if |keys| == 0 then db
    else
      var last := keys[|keys| - 1];
      var prev := WriteFields(db, name, keys[..|keys| - 1], state);
      forall k | k in keys[..|keys| - 1]
        ensures PersistKey(name, k) == PersistKey(name, last) <==> k == last
      {
        PersistKeyInjective(name, k, last);
      }
      assert forall k | k in keys :: k in keys[..|keys| - 1] || k == last;
      prev[PersistKey(name, last) := Value(state[last])]
  }

  /** `setItem`: removes the fields the previous meta record listed and the
      new state lacks, writes every field of the new state, then records the
      new meta record. `keys` is the order `Object.keys` enumerates the state
      in: each of its keys once. A missing state is the empty object. */
  function SetItem(db: PersistStore, name: string, state: Option<map<string, Json>>, keys: seq<string>, version: real)
    : (r: PersistStore)
    requires forall i, j | 0 <= i < j < |keys| :: keys[i] != keys[j]
    requires (set k | k in keys) == state.GetOr(map[]).Keys
    ensures MetaKey(name) in r && r[MetaKey(name)] == Meta(version, keys)
    ensures forall k | k in keys && k != MetaSuffix ::
      PersistKey(name, k) in r && r[PersistKey(name, k)] == Value(state.GetOr(map[])[k])
    ensures forall k | k in PreviousKeys(db, name) && k !in keys :: PersistKey(name, k) in r ==> k == MetaSuffix
    ensures forall key | !InNamespace(key, name) :: (key in r <==> key in db) && (key in db ==> r[key] == db[key])
    ensures forall k | k !in keys && k !in PreviousKeys(db, name) && k != MetaSuffix ::
      (PersistKey(name, k) in r <==> PersistKey(name, k) in db)
      && (PersistKey(name, k) in db ==> r[PersistKey(name, k)] == db[PersistKey(name, k)])
  {
    var st := state.GetOr(map[]);
    var cleared := ClearStale(db, name, keys);
    var written := WriteFields(cleared, name, keys, st);
    StaleNotWritten(db, name, keys, st);
    OutsideUntouched(db, name, keys, st);
    UnlistedUntouched(db, name, keys, st);
    written[MetaKey(name) := Meta(version, keys)]
  }

  /** The removal step of `setItem`: the fields the previous meta record
      lists and the new state lacks. */
  function ClearStale(db: PersistStore, name: string, keys: seq<string>): (r: PersistStore)
    ensures forall k | k in PreviousKeys(db, name) && k !in keys :: PersistKey(name, k) !in r
    ensures forall key | key in r :: key in db && r[key] == db[key]
    ensures forall key | key in db && !InNamespace(key, name) :: key in r
  {
    db - set k | k in PreviousKeys(db, name) && k !in keys :: PersistKey(name, k)
  }

  /** A stale field is gone after the writes too. */
  lemma StaleNotWritten(db: PersistStore, name: string, keys: seq<string>, st: map<string, Json>)
    requires forall k | k in keys :: k in st
    ensures var written := WriteFields(ClearStale(db, name, keys), name, keys, st);
      forall k | k in PreviousKeys(db, name) && k !in keys :: PersistKey(name, k) !in written
  {
    forall k | k in PreviousKeys(db, name) && k !in keys
      ensures !(exists k' | k' in keys :: PersistKey(name, k) == PersistKey(name, k'))
    {
      forall k' | k' in keys ensures PersistKey(name, k) != PersistKey(name, k') {
        PersistKeyInjective(name, k, k');
      }
    }
  }

  /** Keys outside the state's namespace keep their entries. */
  lemma OutsideUntouched(db: PersistStore, name: string, keys: seq<string>, st: map<string, Json>)
    requires forall k | k in keys :: k in st
    ensures var written := WriteFields(ClearStale(db, name, keys), name, keys, st);
      forall key | !InNamespace(key, name) :: (key in written <==> key in db) && (key in db ==> written[key] == db[key])
  {
    forall key | !InNamespace(key, name)
      ensures !(exists k | k in keys :: key == PersistKey(name, k))
    {
    }
  }

  /** A field of the namespace that neither the previous meta record nor the
      new state lists keeps its entry. */
  lemma UnlistedUntouched(db: PersistStore, name: string, keys: seq<string>, st: map<string, Json>)
    requires forall k | k in keys :: k in st
    ensures var written := WriteFields(ClearStale(db, name, keys), name, keys, st);
      forall k | k !in keys && k !in PreviousKeys(db, name) ::
        (PersistKey(name, k) in written <==> PersistKey(name, k) in db)
        && (PersistKey(name, k) in db ==> written[PersistKey(name, k)] == db[PersistKey(name, k)])
  {
    var cleared := ClearStale(db, name, keys);
    forall k | k !in keys && k !in PreviousKeys(db, name)
      ensures PersistKey(name, k) in cleared <==> PersistKey(name, k) in db
      ensures !(exists k' | k' in keys :: PersistKey(name, k) == PersistKey(name, k'))
    {
      forall k' | k' in keys || k' in PreviousKeys(db, name) ensures PersistKey(name, k) != PersistKey(name, k') {
        PersistKeyInjective(name, k, k');
      }
    }
  }

  /** `previousMeta?.keys ?? []`: the fields the stored meta record lists. */
  function PreviousKeys(db: PersistStore, name: string): seq<string> {
    if MetaKey(name) in db && db[MetaKey(name)].Meta? then db[MetaKey(name)].keys else []
  }

  /** Writing a state and reading it back gives the same version and a
      state with exactly the same fields and values, provided no field is
      named `__meta`. */
  lemma SetItemGetItem(db: PersistStore, name: string, state: Option<map<string, Json>>, keys: seq<string>, version: real)
    requires forall i, j | 0 <= i < j < |keys| :: keys[i] != keys[j]
    requires (set k | k in keys) == state.GetOr(map[]).Keys
    requires MetaSuffix !in state.GetOr(map[])
    ensures GetItem(SetItem(db, name, state, keys, version), name)
         == Success(Some(StorageValue(map k | k in state.GetOr(map[]) :: Some(state.GetOr(map[])[k]), version)))
  {
    var st := state.GetOr(map[]);
    var r := SetItem(db, name, state, keys, version);
    GetItemAfterSet(db, name, state, keys, version);
    forall k | k in keys ensures Read(r, PersistKey(name, k)) == Some(st[k]) {
      ReadBackField(db, name, state, keys, version, k);
    }
    ReadAll(r, name, st, keys);
  }

  /** `getItem` right after `setItem` finds the new meta record. */
  lemma GetItemAfterSet(db: PersistStore, name: string, state: Option<map<string, Json>>, keys: seq<string>, version: real)
    requires forall i, j | 0 <= i < j < |keys| :: keys[i] != keys[j]
    requires (set k | k in keys) == state.GetOr(map[]).Keys
    ensures var r := SetItem(db, name, state, keys, version);
      GetItem(r, name) == Success(Some(StorageValue(map k | k in keys :: Read(r, PersistKey(name, k)), version)))
  {
  }

  /** Reading every listed field, each of which holds its value. */
  lemma ReadAll(r: PersistStore, name: string, st: map<string, Json>, keys: seq<string>)
    requires (set k | k in keys) == st.Keys
    requires forall k | k in keys :: Read(r, PersistKey(name, k)) == Some(st[k])
    ensures (map k | k in keys :: Read(r, PersistKey(name, k))) == map k | k in st :: Some(st[k])
  {
    var read, want := map k | k in keys :: Read(r, PersistKey(name, k)), map k | k in st :: Some(st[k]);
    assert read.Keys == want.Keys by {
      forall k ensures k in read <==> k in want {
        assert k in keys <==> k in (set k | k in keys);
      }
    }
  }

  /** A field of the state reads back as its value. */
  lemma ReadBackField(db: PersistStore, name: string, state: Option<map<string, Json>>, keys: seq<string>, version: real, k: string)
    requires forall i, j | 0 <= i < j < |keys| :: keys[i] != keys[j]
    requires (set k | k in keys) == state.GetOr(map[]).Keys
    requires MetaSuffix !in state.GetOr(map[]) && k in keys
    ensures k in state.GetOr(map[])
    ensures Read(SetItem(db, name, state, keys, version), PersistKey(name, k)) == Some(state.GetOr(map[])[k])
  {
    assert k in (set k | k in keys);
  }

  /** A field named `__meta` is overwritten by the meta record that shares
      its key, so it reads back as that record instead of its own value. */
  lemma MetaFieldCollides(db: PersistStore, name: string, state: map<string, Json>, keys: seq<string>, version: real)
    requires forall i, j | 0 <= i < j < |keys| :: keys[i] != keys[j]
    requires (set k | k in keys) == state.Keys
    requires MetaSuffix in state
    ensures var got := GetItem(SetItem(db, name, Some(state), keys, version), name);
      got.Success? && got.value.Some? && MetaSuffix in got.value.value.state
      && got.value.value.state[MetaSuffix] == Some(EntryJson(Meta(version, keys)))
  {
    var r := SetItem(db, name, Some(state), keys, version);
    assert MetaSuffix in keys;
    assert PersistKey(name, MetaSuffix) == MetaKey(name);
  }

  /** Writing the state under one name leaves the state under any other
      colon-free name as it reads. */
  lemma SetItemIsolated(db: PersistStore, name: string, other: string, state: Option<map<string, Json>>, keys: seq<string>, version: real)
    requires forall i, j | 0 <= i < j < |keys| :: keys[i] != keys[j]
    requires (set k | k in keys) == state.GetOr(map[]).Keys
    requires !HasColon(name) && !HasColon(other) && name != other
    ensures GetItem(SetItem(db, name, state, keys, version), other) == GetItem(db, other)
  {
    var r := SetItem(db, name, state, keys, version);
    forall key | InNamespace(key, other)
      ensures (key in r <==> key in db) && (key in db ==> r[key] == db[key])
    {
      if InNamespace(key, name) {
        NamespacesDisjoint(name, other, key);
      }
    }
    GetItemAgrees(r, db, other);
  }

  /** Two stores with the same entries in the namespace of `name` read the
      same state under `name`. */
  lemma GetItemAgrees(a: PersistStore, b: PersistStore, name: string)
    requires forall key | InNamespace(key, name) :: (key in a <==> key in b) && (key in b ==> a[key] == b[key])
    ensures GetItem(a, name) == GetItem(b, name)
  {
    var metaKey := MetaKey(name);
    assert InNamespace(metaKey, name);
    if metaKey in b && b[metaKey].Meta? {
      var keys := b[metaKey].keys;
      var before := map k | k in keys :: Read(b, PersistKey(name, k));
      var after := map k | k in keys :: Read(a, PersistKey(name, k));
      forall k | k in keys ensures after[k] == before[k] {
        assert InNamespace(PersistKey(name, k), name);
      }
      assert after == before;
    }
  }

  /** `removeItem`: deletes every field the meta record lists, then the
      meta record itself. */
  function RemoveItem(db: PersistStore, name: string): (r: PersistStore)
    ensures MetaKey(name) !in r
    ensures forall k | k in PreviousKeys(db, name) :: PersistKey(name, k) !in r
    ensures forall key | key in r :: key in db && r[key] == db[key]
    ensures forall key | key in db && !InNamespace(key, name) :: key in r
  {
    var listed := set k | k in PreviousKeys(db, name) :: PersistKey(name, k);
    db - listed - {MetaKey(name)}
  }

  /** After `removeItem` nothing is stored under the name. */
  lemma RemoveItemGetItem(db: PersistStore, name: string)
    ensures GetItem(RemoveItem(db, name), name) == Success(None)
  {
  }

  /** The `messages` store. */
  type MessagesStore = map<string, seq<Message>>

  /** The keys the messages of `chats` are stored under. */
  function MessageKeys(chats: seq<Chat>): set<string> {
    set c | c in chats :: MessageKey(c.id)
  }

  /** No later chat of the list has the id of `chats[i]`. */
  predicate LastOfId(chats: seq<Chat>, i: nat) {
    forall j | i < j < |chats| :: chats[j].id != chats[i].id
  }

  /** `persistChatMessagesNow`: writes each chat's messages under its key,
      one write after another. */
  function PersistChatMessages(ms: MessagesStore, chats: seq<Chat>): (r: MessagesStore)
    ensures r.Keys == ms.Keys + MessageKeys(chats)
    ensures forall key | key in ms && key !in MessageKeys(chats) :: r[key] == ms[key]
  {
    if |chats| == 0 then ms
    else
      var n := |chats| - 1;
      assert MessageKeys(chats) == MessageKeys(chats[..n]) + {MessageKey(chats[n].id)} by {
        assert forall c | c in chats :: c in chats[..n] || c == chats[n];
      }
      PersistChatMessages(ms, chats[..n])[MessageKey(chats[n].id) := chats[n].messages]
  }

  /** The last write of `persistChatMessagesNow` is the last chat's. */
  lemma PersistChatMessagesStep(ms: MessagesStore, chats: seq<Chat>)
    requires |chats| > 0
    ensures var n := |chats| - 1;
      PersistChatMessages(ms, chats) == PersistChatMessages(ms, chats[..n])[MessageKey(chats[n].id) := chats[n].messages]
  {
  }

  /** Of several chats with one id, the last one's messages stay. */
  lemma {:induction false} PersistChatMessagesLast(ms: MessagesStore, chats: seq<Chat>, i: nat)
    requires i < |chats| && LastOfId(chats, i)
    ensures PersistChatMessages(ms, chats)[MessageKey(chats[i].id)] == chats[i].messages
  {
    var n := |chats| - 1;
    var prefix := chats[..n];
    var key := MessageKey(chats[i].id);
    PersistChatMessagesStep(ms, chats);
    if i < n {
      assert prefix[i] == chats[i];
      assert LastOfId(prefix, i) by {
        forall j | i < j < |prefix| ensures prefix[j].id != prefix[i].id {
          assert prefix[j] == chats[j];
        }
      }
      PersistChatMessagesLast(ms, prefix, i);
      MessageKeyInjective(chats[i].id, chats[n].id);
      var before := PersistChatMessages(ms, prefix);
      assert key in before && before[key] == chats[i].messages;
      assert key != MessageKey(chats[n].id);
    }
  }

  /** `deleteChatMessages` */
  function DeleteChatMessages(ms: MessagesStore, ids: seq<string>): (r: MessagesStore)
    ensures forall id | id in ids :: MessageKey(id) !in r
    ensures forall key | key in ms && !(exists id | id in ids :: key == MessageKey(id)) :: key in r && r[key] == ms[key]
    ensures forall key | key in r :: key in ms
  {
    ms - set id | id in ids :: MessageKey(id)
  }

  /** The messages a chat reads back with: those stored for its id, else
      its own. */
  function Hydrated(ms: MessagesStore, chat: Chat): (r: Chat)
    ensures r == chat.(messages := r.messages)
    ensures MessageKey(chat.id) in ms ==> r.messages == ms[MessageKey(chat.id)]
    ensures MessageKey(chat.id) !in ms ==> r == chat
  {
    var key := MessageKey(chat.id);
    if key in ms then chat.(messages := ms[key]) else chat
  }

  /** `hydrateChatsWithMessages` */
  function HydrateChats(ms: MessagesStore, chats: seq<Chat>): (r: seq<Chat>)
    ensures |r| == |chats|
    ensures forall i | 0 <= i < |chats| :: r[i] == Hydrated(ms, chats[i])
  {
    seq(|chats|, i requires 0 <= i < |chats| => Hydrated(ms, chats[i]))
  }

  /** With distinct ids, chats written with `persistChatMessagesNow` read
      back exactly as they were. */
  lemma PersistThenHydrate(ms: MessagesStore, chats: seq<Chat>)
    requires DistinctIds(chats)
    ensures HydrateChats(PersistChatMessages(ms, chats), chats) == chats
  {
    forall i | 0 <= i < |chats| ensures Hydrated(PersistChatMessages(ms, chats), chats[i]) == chats[i] {
      assert LastOfId(chats, i);
      PersistChatMessagesLast(ms, chats, i);
    }
  }

  /** A chat whose messages were deleted reads back with its own. */
  lemma DeleteThenHydrate(ms: MessagesStore, ids: seq<string>, chat: Chat)
    requires chat.id in ids
    ensures Hydrated(DeleteChatMessages(ms, ids), chat) == chat
  {
  }

  /** A chat `syncChatsWithMessages` writes back: nothing stored for it and
      messages of its own. */
  predicate Missing(ms: MessagesStore, chat: Chat) {
    MessageKey(chat.id) !in ms && |chat.messages| > 0
  }

  predicate DistinctIds(chats: seq<Chat>) {
    forall i, j | 0 <= i < j < |chats| :: chats[i].id != chats[j].id
  }

  /** The missing chats, in order. */
  function MissingChats(ms: MessagesStore, chats: seq<Chat>): (r: seq<Chat>)
    ensures forall c | c in r :: c in chats && Missing(ms, c)
    ensures forall c | c in chats && Missing(ms, c) :: c in r
  {
    if |chats| == 0 then []
    else
      var n := |chats| - 1;
      assert forall c | c in chats :: c in chats[..n] || c == chats[n];
      MissingChats(ms, chats[..n]) + (if Missing(ms, chats[n]) then [chats[n]] else [])
  }

  /** Selecting the missing chats keeps ids distinct. */
  lemma {:induction false} MissingChatsDistinct(ms: MessagesStore, chats: seq<Chat>)
    requires DistinctIds(chats)
    ensures DistinctIds(MissingChats(ms, chats))
  {
    if |chats| > 0 {
      var n := |chats| - 1;
      var prev := MissingChats(ms, chats[..n]);
      assert DistinctIds(chats[..n]);
      MissingChatsDistinct(ms, chats[..n]);
      forall c | c in prev ensures c.id != chats[n].id {
        var p :| 0 <= p < n && chats[p] == c;
      }
    }
  }

  /** `syncChatsWithMessages`: the hydrated chats, and the store after the
      missing chats are written back (no write when none is missing). */
  function SyncChats(ms: MessagesStore, chats: seq<Chat>): (r: (seq<Chat>, MessagesStore))
    ensures r.0 == HydrateChats(ms, chats)
    ensures r.1.Keys == ms.Keys + (set c | c in chats && Missing(ms, c) :: MessageKey(c.id))
    ensures forall key | key in ms :: r.1[key] == ms[key]
  {
    var missing := MissingChats(ms, chats);
    var written := if |missing| > 0 then PersistChatMessages(ms, missing) else ms;
    assert MessageKeys(missing) == (set c | c in chats && Missing(ms, c) :: MessageKey(c.id));
    (HydrateChats(ms, chats), written)
  }

  /** With distinct ids, a chat written back by a sync is stored with its
      own messages. */
  lemma SyncWritesMissing(ms: MessagesStore, chats: seq<Chat>, c: Chat)
    requires DistinctIds(chats)
    requires c in chats && Missing(ms, c)
    ensures SyncChats(ms, chats).1[MessageKey(c.id)] == c.messages
  {
    var missing := MissingChats(ms, chats);
    MissingChatsDistinct(ms, chats);
    var m :| 0 <= m < |missing| && missing[m] == c;
    assert LastOfId(missing, m);
    PersistChatMessagesLast(ms, missing, m);
  }

  /** With distinct ids, a chat not written back by a sync has, after it,
      what it had before. */
  lemma SyncKeepsOthers(ms: MessagesStore, chats: seq<Chat>, c: Chat)
    requires DistinctIds(chats)
    requires c in chats && !Missing(ms, c)
    ensures MessageKey(c.id) in SyncChats(ms, chats).1 <==> MessageKey(c.id) in ms
  {
    var written := SyncChats(ms, chats).1;
    forall d | d in chats && Missing(ms, d) ensures MessageKey(c.id) != MessageKey(d.id) {
      MessageKeyInjective(c.id, d.id);
    }
  }

  /** With distinct chat ids, after a sync the store agrees with the chats it
      returned: hydrating them again changes nothing. */
  lemma SyncThenHydrate(ms: MessagesStore, chats: seq<Chat>)
    requires DistinctIds(chats)
    ensures HydrateChats(SyncChats(ms, chats).1, chats) == SyncChats(ms, chats).0
  {
    var written := SyncChats(ms, chats).1;
    forall i | 0 <= i < |chats| ensures Hydrated(written, chats[i]) == Hydrated(ms, chats[i]) {
      var c := chats[i];
      if Missing(ms, c) {
        SyncWritesMissing(ms, chats, c);
      } else {
        SyncKeepsOthers(ms, chats, c);
      }
    }
  }
}
