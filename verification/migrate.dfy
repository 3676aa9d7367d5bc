/** Persisted-state migrations (src/store/migrate.ts): chat-id repair and the
    fall-through chain of version upgrades applied to the untyped state read
    back from storage.

    The default values the migrations write come from src/constants, which is
    not part of this model; they are the `Defaults` parameter. `uuidv4` is the
    parameter `uuid`: the k-th identifier it hands out is `uuid(k)`. A
    migration that throws makes the whole chain fail. */
module Migrate {
  import opened Wrappers
  import opened Strings
  import opened ChatTypes
  import opened JsonValues

  // Chat-id repair

  /** The chats from `chats` on, given the ids already handed out (`seen`)
      and the number of fresh ids used so far. A chat keeps its id when it has
      one not seen yet, and otherwise gets the next fresh id. */
  function AssignIds(chats: seq<Chat>, seen: set<string>, used: nat, uuid: nat -> string): (r: seq<Chat>)
    ensures |r| == |chats|
    ensures forall i | 0 <= i < |chats| :: r[i] == chats[i].(id := r[i].id)
    decreases |chats|
  {
    if |chats| == 0 then []
    else
      var c := chats[0];
      var nextId := NextId(c, seen, used, uuid);
      var head := if nextId == c.id then c else c.(id := nextId);
      [head] + AssignIds(chats[1..], seen + {nextId}, NextUsed(c, seen, used), uuid)
  }

  /** `if (!chat.id || seen.has(chat.id))` fails: the chat keeps its id. */
  predicate KeepsId(c: Chat, seen: set<string>) {
    c.id != "" && c.id !in seen
  }

  /** The id chat `c` ends up with. */
  function NextId(c: Chat, seen: set<string>, used: nat, uuid: nat -> string): string {
    if KeepsId(c, seen) then c.id else uuid(used)
  }

  /** The number of fresh ids used once `c` has its id. */
  function NextUsed(c: Chat, seen: set<string>, used: nat): nat {
    if KeepsId(c, seen) then used else used + 1
  }

  lemma IdsOfPrefix(h: Chat, t: seq<Chat>, i: nat)
    requires 1 <= i <= |t| + 1
    ensures Ids(([h] + t)[..i]) == [h.id] + Ids(t[..i - 1])
  {
    assert ([h] + t)[..i] == [h] + t[..i - 1];
  }

  /** A chat whose id is present and not handed out before keeps it
      unchanged. */
  lemma {:induction false} AssignIdsKeeps(chats: seq<Chat>, seen: set<string>, used: nat, uuid: nat -> string)
    ensures var r := AssignIds(chats, seen, used, uuid);
      forall i | 0 <= i < |chats| ::
        chats[i].id != "" && chats[i].id !in seen && chats[i].id !in Ids(r[..i]) ==> r[i] == chats[i]
    decreases |chats|
  {
    if |chats| > 0 {
      var c := chats[0];
      var nextId, used' := NextId(c, seen, used, uuid), NextUsed(c, seen, used);
      var r := AssignIds(chats, seen, used, uuid);
      var tail := AssignIds(chats[1..], seen + {nextId}, used', uuid);
      var head := if nextId == c.id then c else c.(id := nextId);
      assert r == [head] + tail;
      AssignIdsKeeps(chats[1..], seen + {nextId}, used', uuid);
      forall i | 1 <= i < |chats| && chats[i].id != "" && chats[i].id !in seen && chats[i].id !in Ids(r[..i])
        ensures r[i] == chats[i]
      {
        IdsOfPrefix(head, tail, i);
        assert chats[i] == chats[1..][i - 1];
        assert chats[i].id !in Ids(tail[..i - 1]) && chats[i].id != nextId;
      }
    }
  }

  /** `ensureChatIds`: nothing to do for a missing or empty list; otherwise
      every chat keeps its place and all fields but its id. */
  function EnsureChatIds(chats: Option<seq<Chat>>, uuid: nat -> string): (r: Option<seq<Chat>>)
    ensures chats.None? || |chats.value| == 0 ==> r == chats
    ensures chats.Some? ==>
      && r.Some? && |r.value| == |chats.value|
      && forall i | 0 <= i < |chats.value| :: r.value[i] == chats.value[i].(id := r.value[i].id)
  {
    if chats.None? || |chats.value| == 0 then chats
    else Some(AssignIds(chats.value, {}, 0, uuid))
  }

  /** Fresh identifiers are non-empty, pairwise different and different from
      every identifier in `seen` and in `chats`. */
  ghost predicate FreshFrom(uuid: nat -> string, used: nat, seen: set<string>, chats: seq<Chat>) {
    && (forall k | used <= k :: uuid(k) != "" && uuid(k) !in seen)
    && (forall k | used <= k :: uuid(k) !in Ids(chats))
    && (forall k, l | used <= k < l :: uuid(k) != uuid(l))
  }

  /** Freshness carries over to the rest of the list. */
  lemma FreshFromTail(chats: seq<Chat>, seen: set<string>, used: nat, uuid: nat -> string)
    requires |chats| > 0 && FreshFrom(uuid, used, seen, chats)
    ensures var nextId, used' := NextId(chats[0], seen, used, uuid), NextUsed(chats[0], seen, used);
      && nextId != "" && nextId !in seen
      && FreshFrom(uuid, used', seen + {nextId}, chats[1..])
  {
    var nextId, used' := NextId(chats[0], seen, used, uuid), NextUsed(chats[0], seen, used);
    assert Ids(chats[1..]) == Ids(chats)[1..];
    forall k | used' <= k ensures uuid(k) != nextId {
      if nextId == chats[0].id {
        assert Ids(chats)[0] == chats[0].id;
      }
    }
  }

  /** The ids of `r` are non-empty, pairwise different and not in `seen`. */
  ghost predicate NewDistinctIds(r: seq<Chat>, seen: set<string>) {
    && (forall i | 0 <= i < |r| :: r[i].id != "" && r[i].id !in seen)
    && (forall i, j | 0 <= i < j < |r| :: r[i].id != r[j].id)
  }

  /** Putting a chat with a new id in front of a list of distinct new ids. */
  lemma ConsDistinct(head: Chat, tail: seq<Chat>, seen: set<string>)
    requires head.id != "" && head.id !in seen
    requires NewDistinctIds(tail, seen + {head.id})
    ensures NewDistinctIds([head] + tail, seen)
  {
    var r := [head] + tail;
    assert forall i | 1 <= i < |r| :: r[i] == tail[i - 1];
  }

  /** With fresh identifiers, the assigned ids are non-empty, pairwise
      different and new. */
  lemma {:induction false} AssignIdsFresh(chats: seq<Chat>, seen: set<string>, used: nat, uuid: nat -> string)
    requires FreshFrom(uuid, used, seen, chats)
    ensures NewDistinctIds(AssignIds(chats, seen, used, uuid), seen)
    decreases |chats|
  {
    if |chats| > 0 {
      var c := chats[0];
      var nextId, used' := NextId(c, seen, used, uuid), NextUsed(c, seen, used);
      var tail := AssignIds(chats[1..], seen + {nextId}, used', uuid);
      var head := if nextId == c.id then c else c.(id := nextId);
      assert AssignIds(chats, seen, used, uuid) == [head] + tail;
      FreshFromTail(chats, seen, used, uuid);
      AssignIdsFresh(chats[1..], seen + {nextId}, used', uuid);
      assert head.id == nextId;
      ConsDistinct(head, tail, seen);
    }
  }

  /** With fresh identifiers, a chat whose id is missing or already taken
      gets a different id. */
  lemma {:induction false} AssignIdsReplaced(chats: seq<Chat>, seen: set<string>, used: nat, uuid: nat -> string)
    requires FreshFrom(uuid, used, seen, chats)
    ensures var r := AssignIds(chats, seen, used, uuid);
      forall i | 0 <= i < |r| ::
        !(chats[i].id != "" && chats[i].id !in seen && chats[i].id !in Ids(r[..i])) ==> r[i].id != chats[i].id
    decreases |chats|
  {
    if |chats| > 0 {
      var c := chats[0];
      var nextId, used' := NextId(c, seen, used, uuid), NextUsed(c, seen, used);
      var r := AssignIds(chats, seen, used, uuid);
      var tail := AssignIds(chats[1..], seen + {nextId}, used', uuid);
      var head := if nextId == c.id then c else c.(id := nextId);
      assert r == [head] + tail;
      FreshFromTail(chats, seen, used, uuid);
      AssignIdsReplaced(chats[1..], seen + {nextId}, used', uuid);
      forall i | 1 <= i < |r|
        ensures !(chats[i].id != "" && chats[i].id !in seen && chats[i].id !in Ids(r[..i])) ==> r[i].id != chats[i].id
      {
        IdsOfPrefix(head, tail, i);
        assert r[i] == tail[i - 1] && chats[i] == chats[1..][i - 1];
      }
    }
  }

  /** With fresh identifiers, the assigned ids are non-empty, pairwise
      different and new, and a chat whose id is missing or already taken gets
      a different id. */
  lemma AssignIdsDistinct(chats: seq<Chat>, seen: set<string>, used: nat, uuid: nat -> string)
    requires FreshFrom(uuid, used, seen, chats)
    ensures var r := AssignIds(chats, seen, used, uuid);
      && (forall i | 0 <= i < |r| :: r[i].id != "" && r[i].id !in seen)
      && (forall i, j | 0 <= i < j < |r| :: r[i].id != r[j].id)
      && (forall i | 0 <= i < |r| ::
            !(chats[i].id != "" && chats[i].id !in seen && chats[i].id !in Ids(r[..i])) ==> r[i].id != chats[i].id)
  {
    AssignIdsFresh(chats, seen, used, uuid);
    AssignIdsReplaced(chats, seen, used, uuid);
  }

  /** `ensureChatIds` leaves a list whose ids are pairwise distinct. */
  lemma EnsureChatIdsDistinct(chats: seq<Chat>, uuid: nat -> string)
    requires |chats| > 0 && FreshFrom(uuid, 0, {}, chats)
    ensures var r := EnsureChatIds(Some(chats), uuid).value;
      forall i, j | 0 <= i < j < |r| :: r[i].id != r[j].id
  {
    AssignIdsDistinct(chats, {}, 0, uuid);
  }

  /** A list whose ids are present and pairwise distinct, and not handed
      out before, comes back unchanged. */
  lemma {:induction false} AssignIdsIdentity(chats: seq<Chat>, seen: set<string>, used: nat, uuid: nat -> string)
    requires forall i | 0 <= i < |chats| :: chats[i].id != "" && chats[i].id !in seen
    requires forall i, j | 0 <= i < j < |chats| :: chats[i].id != chats[j].id
    ensures AssignIds(chats, seen, used, uuid) == chats
    decreases |chats|
  {
    if |chats| > 0 {
      var c := chats[0];
      forall i | 0 <= i < |chats[1..]| ensures chats[1..][i].id != "" && chats[1..][i].id !in seen + {c.id} {
        assert chats[1..][i] == chats[i + 1];
      }
      AssignIdsIdentity(chats[1..], seen + {c.id}, used, uuid);
      assert chats == [c] + chats[1..];
    }
  }

  /** Repairing ids a second time changes nothing. */
  lemma EnsureChatIdsIdempotent(chats: Option<seq<Chat>>, uuid: nat -> string)
    requires chats.Some? ==> FreshFrom(uuid, 0, {}, chats.value)
    ensures EnsureChatIds(EnsureChatIds(chats, uuid), uuid) == EnsureChatIds(chats, uuid)
  {
    if chats.Some? && |chats.value| > 0 {
      AssignIdsDistinct(chats.value, {}, 0, uuid);
      AssignIdsIdentity(AssignIds(chats.value, {}, 0, uuid), {}, 0, uuid);
    }
  }

  // The migrations

  /** The default values the migrations write. */
  datatype Defaults = Defaults(
    chatConfig: Json,
    topP: Json,
    frequencyPenalty: Json,
    prompts: Json,
    model: Json,
    apiVersion: Json,
    menuWidth: Json,
    displayChatSize: Json,
    imageDetail: Json)

  /** The per-chat bodies of the `chats.forEach` loops. */
  datatype ChatStep =
    | TitleAndConfig(d: Defaults)             // version 0
    | Reconfig(overrides: map<string, Json>)  // versions 2, 4 and 5
    | UpgradeMessages                         // version 8
    | FillImageDetail(detail: Json)           // version 8.2

  /** One chat through one loop body. */
  function StepChat(step: ChatStep, c: map<string, Json>): (r: Result<map<string, Json>>)
    ensures step.TitleAndConfig? ==>
      && r.Success?
      && Get(r.value, "titleSet") == Some(Bool(false))
      && Truthy(Get(r.value, "config"))
      && (Truthy(Get(c, "config")) ==> Get(r.value, "config") == Get(c, "config"))
      && forall k | k != "titleSet" && k != "config" :: Get(r.value, k) == Get(c, k)
    ensures step.Reconfig? ==>
      && r.Success?
      && Get(r.value, "config").Some? && r.value["config"].Obj?
      && (forall k | k in step.overrides :: Get(r.value["config"].fields, k) == Some(step.overrides[k]))
      && (forall k | k !in step.overrides :: Get(r.value["config"].fields, k) == Get(Spread(Get(c, "config")), k))
      && forall k | k != "config" :: Get(r.value, k) == Get(c, k)
    ensures step.UpgradeMessages? ==>
      && (r.Success? <==>
            && Get(c, "messages").Some? && c["messages"].Arr?
            && forall i | 0 <= i < |c["messages"].items| :: !c["messages"].items[i].Null?)
      && (r.Success? ==>
            && Get(r.value, "messages").Some? && r.value["messages"].Arr?
            && |r.value["messages"].items| == |c["messages"].items|
            && (forall i | 0 <= i < |c["messages"].items| :: r.value["messages"].items[i] == UpgradeMessage(c["messages"].items[i]).value)
            && forall k | k != "messages" :: Get(r.value, k) == Get(c, k))
    ensures step.FillImageDetail? ==>
      && r.Success?
      && (Get(c, "imageDetail").Some? && !c["imageDetail"].Null? ==> r.value == c)
      && (Get(c, "imageDetail").None? || c["imageDetail"].Null? ==> Get(r.value, "imageDetail") == Some(step.detail))
      && forall k | k != "imageDetail" :: Get(r.value, k) == Get(c, k)
  {
    match step
    case TitleAndConfig(d) =>
      var c1 := c["titleSet" := Bool(false)];
      Success(if Truthy(Get(c1, "config")) then c1 else c1["config" := Obj(Spread(Some(d.chatConfig)))])
    case Reconfig(overrides) => Success(Reconfigure(c, overrides))
    case UpgradeMessages =>
      var msgs := Get(c, "messages");
      if msgs.Some? && msgs.value.Arr? then
        var items :- EachMessage(msgs.value.items);
        Success(c["messages" := Arr(items)])
      else Failure("TypeError: messages is not an array")
    case FillImageDetail(detail) =>
      var v := Get(c, "imageDetail");
      Success(if v.None? || v.value.Null? then c["imageDetail" := detail] else c)
  }

  /** `chats.forEach(...)` over chat objects: a chat that is not an object
      makes the assignment inside the loop body throw. */
  function EachChat(items: seq<Json>, step: ChatStep): (r: Result<seq<Json>>)
    ensures r.Success? <==> forall i | 0 <= i < |items| :: items[i].Obj? && StepChat(step, items[i].fields).Success?
    ensures r.Success? ==>
      && |r.value| == |items|
      && forall i | 0 <= i < |items| :: r.value[i] == Obj(StepChat(step, items[i].fields).value)
    decreases |items|
  {
    if |items| == 0 then Success([])
    else if !items[0].Obj? then Failure("TypeError: chat is not an object")
    else
      var head :- StepChat(step, items[0].fields);
      var tail :- EachChat(items[1..], step);
      Success([Obj(head)] + tail)
  }

  /** The chat list of a state, when it has one. */
  function ChatsOf(st: Json): seq<Json> {
    if st.Obj? && "chats" in st.fields && st.fields["chats"].Arr? then st.fields["chats"].items else []
  }

  /** `persistedState.chats.forEach(...)`: throws unless the state is an
      object whose `chats` is an array; every other field is left alone. */
  function ForEachChat(st: Json, step: ChatStep): (r: Result<Json>)
    ensures r.Success? <==>
      && st.Obj? && "chats" in st.fields && st.fields["chats"].Arr?
      && forall i | 0 <= i < |ChatsOf(st)| :: ChatsOf(st)[i].Obj? && StepChat(step, ChatsOf(st)[i].fields).Success?
    ensures r.Success? ==>
      && r.value.Obj? && r.value.fields.Keys == st.fields.Keys
      && (forall k | k in st.fields && k != "chats" :: r.value.fields[k] == st.fields[k])
      && r.value.fields["chats"].Arr?
      && |ChatsOf(r.value)| == |ChatsOf(st)|
      && forall i | 0 <= i < |ChatsOf(st)| :: ChatsOf(r.value)[i] == Obj(StepChat(step, ChatsOf(st)[i].fields).value)
  {
    if st.Obj? && "chats" in st.fields && st.fields["chats"].Arr? then
      assert ChatsOf(st) == st.fields["chats"].items;
      var items :- EachChat(st.fields["chats"].items, step);
      var out := Obj(st.fields["chats" := Arr(items)]);
      assert ChatsOf(out) == items;
      Success(out)
    else Failure("TypeError: chats is not an array")
  }

  /** Assigning a property of the state object; the state must be an object
      (modules run in strict mode, so assigning to a primitive throws). */
  function SetTop(st: Json, key: string, v: Option<Json>): (r: Result<Json>)
    ensures r.Success? <==> st.Obj?
    ensures r.Success? ==>
      && r.value.Obj? && Get(r.value.fields, key) == v
      && forall k | k != key :: Get(r.value.fields, k) == Get(st.fields, k)
  {
    if st.Obj? then Success(Obj(Put(st.fields, key, v))) else Failure("TypeError: state is not an object")
  }

  /** Version 0: every chat gets `titleSet = false` and, when it has none, the
      default configuration. */
  function MigrateV0(st: Json, d: Defaults): Result<Json> {
    ForEachChat(st, TitleAndConfig(d))
  }

  /** Version 1: the endpoint becomes the free endpoint when `apiFree` is set,
      and "" otherwise. */
  function MigrateV1(st: Json): (r: Result<Json>)
    ensures r.Success? <==> st.Obj?
    ensures r.Success? ==> r.value.Obj?
    ensures r.Success? ==> (
      Get(r.value.fields, "apiEndpoint") == if Truthy(Get(st.fields, "apiFree")) then Get(st.fields, "apiFreeEndpoint") else Some(Str("")))
    ensures r.Success? ==> forall k | k != "apiEndpoint" :: Get(r.value.fields, k) == Get(st.fields, k)
  {
    if !st.Obj? then Failure("TypeError: state is not an object")
    else if Truthy(Get(st.fields, "apiFree")) then SetTop(st, "apiEndpoint", Get(st.fields, "apiFreeEndpoint"))
    else SetTop(st, "apiEndpoint", Some(Str("")))
  }

  /** `{...chat.config}` with some fields overridden. */
  function Reconfigure(c: map<string, Json>, overrides: map<string, Json>): map<string, Json> {
    c["config" := Obj(Spread(Get(c, "config")) + overrides)]
  }

  /** Version 2: default `top_p` and `frequency_penalty` in every chat
      configuration, then `autoTitle = false`. */
  function MigrateV2(st: Json, d: Defaults): Result<Json> {
    var s :- ForEachChat(st, Reconfig(map["top_p" := d.topP, "frequency_penalty" := d.frequencyPenalty]));
    SetTop(s, "autoTitle", Some(Bool(false)))
  }

  /** Version 3: the default prompt library. */
  function MigrateV3(st: Json, d: Defaults): Result<Json> {
    SetTop(st, "prompts", Some(d.prompts))
  }

  /** Version 4: the default model in every chat configuration. */
  function MigrateV4(st: Json, d: Defaults): Result<Json> {
    ForEachChat(st, Reconfig(map["model" := d.model]))
  }

  /** Version 5: every chat configuration is copied into a fresh object. */
  function MigrateV5(st: Json): Result<Json> {
    ForEachChat(st, Reconfig(map[]))
  }

  const RetiredEndpoint: string := "https://sharegpt.churchless.tech/share/v1/chat"
  const ReplacementEndpoint: string := "https://chatgpt-api.shn.hk/v1/"

  /** `v.length === 0` for a truthy value: an empty array, or an object whose
      `length` property is the number 0. */
  predicate LengthIsZero(v: Json) {
    match v
    case Arr(items) => |items| == 0
    case Obj(f) => Get(f, "length") == Some(Num(0.0))
    case _ => false
  }

  /** Version 6: the retired endpoint is replaced, and a missing or empty API
      key becomes "". */
  function MigrateV6(st: Json): (r: Result<Json>)
    ensures r.Success? <==> st.Obj?
    ensures r.Success? ==> r.value.Obj?
    ensures r.Success? ==> (
      var before := Get(st.fields, "apiEndpoint");
      Get(r.value.fields, "apiEndpoint") == if before == Some(Str(RetiredEndpoint)) then Some(Str(ReplacementEndpoint)) else before)
    ensures r.Success? ==> Get(r.value.fields, "apiEndpoint") != Some(Str(RetiredEndpoint))
    ensures r.Success? ==> var key := Get(st.fields, "apiKey");
      Get(r.value.fields, "apiKey") == (if !Truthy(key) || LengthIsZero(key.value) then Some(Str("")) else key)
    ensures r.Success? ==> Truthy(Get(r.value.fields, "apiKey")) || Get(r.value.fields, "apiKey") == Some(Str(""))
    ensures r.Success? ==> forall k | k != "apiEndpoint" && k != "apiKey" :: Get(r.value.fields, k) == Get(st.fields, k)
  {
    if !st.Obj? then Failure("TypeError: state is not an object")
    else
      var s1 := if Get(st.fields, "apiEndpoint") == Some(Str(RetiredEndpoint))
        then Obj(st.fields["apiEndpoint" := Str(ReplacementEndpoint)]) else st;
      var key := Get(s1.fields, "apiKey");
      if !Truthy(key) || LengthIsZero(key.value) then SetTop(s1, "apiKey", Some(Str(""))) else Success(s1)
  }

  /** `foldersExpanded[index]`: reading an index of `undefined` or `null`
      throws; an out-of-range index is `undefined`. */
  function ExpandedAt(fe: Option<Json>, i: nat): Result<Option<Json>> {
    match fe
    case None => Failure("TypeError: foldersExpanded is undefined")
    case Some(Null) => Failure("TypeError: foldersExpanded is null")
    case Some(Arr(items)) => Success(if i < |items| then Some(items[i]) else None)
    case Some(Str(s)) => Success(if i < |s| then Some(Str([s[i]])) else None)
    case Some(Obj(f)) => Success(Get(f, NatToString(i)))
    case Some(_) => Success(None)
  }

  /** The folder object version 7 creates. */
  function FolderJson(id: string, name: Json, expanded: Option<Json>, order: nat): Json {
    Obj(Put(map["id" := Str(id), "name" := name, "order" := Num(order as real)], "expanded", expanded))
  }

  datatype FolderBuild = FolderBuild(folders: map<string, Json>, idOf: map<Json, string>)

  /** Version 7, first loop: one folder per name from index `i` on, with the
      `i`-th fresh id; a later folder with the same name takes over the name's
      id. */
  function BuildFolders(names: seq<Json>, fe: Option<Json>, uuid: nat -> string, i: nat, acc: FolderBuild): (r: Result<FolderBuild>)
    requires i <= |names|
    ensures r.Success? ==> acc.folders.Keys <= r.value.folders.Keys && acc.idOf.Keys <= r.value.idOf.Keys
    ensures r.Success? ==> forall j | i <= j < |names| :: uuid(j) in r.value.folders.Keys && names[j] in r.value.idOf
    decreases |names| - i
  {
    if i == |names| then Success(acc)
    else
      var exp :- ExpandedAt(fe, i);
      var id := uuid(i);
      var folder := FolderJson(id, names[i], exp, i);
      BuildFolders(names, fe, uuid, i + 1, FolderBuild(map[id := folder] + acc.folders, acc.idOf[names[i] := id]))
  }

  /** The folder loop of version 7 over the state's `foldersName`. */
  function V7Folders(st: Json, uuid: nat -> string): (r: Result<FolderBuild>)
    ensures r.Success? ==> st.Obj? && "foldersName" in st.fields && st.fields["foldersName"].Arr?
  {
    if !(st.Obj? && "foldersName" in st.fields && st.fields["foldersName"].Arr?) then
      Failure("TypeError: foldersName is not an array")
    else BuildFolders(st.fields["foldersName"].items, Get(st.fields, "foldersExpanded"), uuid, 0, FolderBuild(map[], map[]))
  }

  /** Version 7: folders from the parallel name and expanded lists, chat
      folder names replaced by folder ids, and a fresh id for every chat. */
  function MigrateV7(st: Json, uuid: nat -> string): (r: Result<Json>)
    ensures r.Success? ==>
      && V7Folders(st, uuid).Success?
      && r.value.Obj? && Get(r.value.fields, "folders") == Some(Obj(V7Folders(st, uuid).value.folders))
      && |ChatsOf(r.value)| == |ChatsOf(st)|
      && forall j | 0 <= j < |ChatsOf(st)| ::
           && ChatsOf(st)[j].Obj?
           && ChatsOf(r.value)[j] ==
                Obj(RefolderChat(ChatsOf(st)[j].fields, V7Folders(st, uuid).value.idOf)["id" := Str(uuid(|st.fields["foldersName"].items| + j))])
  {
    var built :- V7Folders(st, uuid);
    var s1 := Obj(st.fields["folders" := Obj(built.folders)]);
    assert ChatsOf(s1) == ChatsOf(st);
    RenumberChats(s1, built.idOf, uuid, |st.fields["foldersName"].items|)
  }

  /** Version 7, second loop: chat `j` gets the fresh id number `n + j`. */
  function RenumberChats(st: Json, idOf: map<Json, string>, uuid: nat -> string, n: nat): (r: Result<Json>)
    ensures r.Success? ==> st.Obj? && "chats" in st.fields && st.fields["chats"].Arr?
    ensures r.Success? ==> r.value.Obj? && r.value.fields.Keys == st.fields.Keys
    ensures r.Success? ==> forall k | k in st.fields && k != "chats" :: r.value.fields[k] == st.fields[k]
    ensures r.Success? ==>
      && |ChatsOf(r.value)| == |ChatsOf(st)|
      && forall j | 0 <= j < |ChatsOf(st)| ::
           ChatsOf(st)[j].Obj? && ChatsOf(r.value)[j] == Obj(RefolderChat(ChatsOf(st)[j].fields, idOf)["id" := Str(uuid(n + j))])
  {
    if st.Obj? && "chats" in st.fields && st.fields["chats"].Arr? then
      var items := st.fields["chats"].items;
      if forall j | 0 <= j < |items| :: items[j].Obj? then
        var renamed := seq(|items|, j requires 0 <= j < |items| => Obj(RefolderChat(items[j].fields, idOf)["id" := Str(uuid(n + j))]));
        var out := Obj(st.fields["chats" := Arr(renamed)]);
        assert ChatsOf(st) == items && ChatsOf(out) == renamed;
        Success(out)
      else Failure("TypeError: chat is not an object")
    else Failure("TypeError: chats is not an array")
  }

  /** `if (chat.folder) chat.folder = folderNameToIdMap[chat.folder]`. */
  function RefolderChat(c: map<string, Json>, idOf: map<Json, string>): map<string, Json> {
    var folder := Get(c, "folder");
    if Truthy(folder) then Put(c, "folder", if folder.value in idOf then Some(Str(idOf[folder.value])) else None)
    else c
  }

  /** Version 8: message content given as a plain string becomes a single
      text item; the API version is set when there is at least one chat. */
  function MigrateV8_1(st: Json, d: Defaults): (r: Result<Json>)
    ensures r.Success? <==> ForEachChat(st, UpgradeMessages).Success?
    ensures r.Success? ==>
      && r.value.Obj?
      && Get(r.value.fields, "apiVersion") == (if |ChatsOf(st)| > 0 then Some(d.apiVersion) else Get(st.fields, "apiVersion"))
      && (forall k | k != "apiVersion" && k != "chats" :: Get(r.value.fields, k) == Get(st.fields, k))
      && |ChatsOf(r.value)| == |ChatsOf(st)|
      && forall i | 0 <= i < |ChatsOf(st)| :: ChatsOf(r.value)[i] == Obj(StepChat(UpgradeMessages, ChatsOf(st)[i].fields).value)
  {
    var s :- ForEachChat(st, UpgradeMessages);
    if |ChatsOf(st)| > 0 then
      var out := Obj(s.fields["apiVersion" := d.apiVersion]);
      assert ChatsOf(out) == ChatsOf(s);
      Success(out)
    else Success(s)
  }

  function TextItem(s: string): Json {
    Obj(map["type" := Str("text"), "text" := Str(s)])
  }

  /** A message's content after version 8. */
  function UpgradeMessage(m: Json): (r: Result<Json>)
    ensures r.Success? <==> !m.Null?
    ensures r.Success? && m.Obj? && Get(m.fields, "content").Some? && m.fields["content"].Str? ==>
      && r.value.Obj?
      && Get(r.value.fields, "content") == Some(Arr([TextItem(m.fields["content"].s)]))
      && forall k | k != "content" :: Get(r.value.fields, k) == Get(m.fields, k)
    ensures r.Success? && !(m.Obj? && Get(m.fields, "content").Some? && m.fields["content"].Str?) ==> r.value == m
  {
    match m
    case Null => Failure("TypeError: message is null")
    case Obj(f) =>
      var content := Get(f, "content");
      Success(if content.Some? && content.value.Str? then Obj(f["content" := Arr([TextItem(content.value.s)])]) else m)
    case _ => Success(m)
  }

  /** `chat.messages.forEach(...)` of version 8. */
  function EachMessage(items: seq<Json>): (r: Result<seq<Json>>)
    ensures r.Success? <==> forall i | 0 <= i < |items| :: !items[i].Null?
    ensures r.Success? ==> |r.value| == |items| && forall i | 0 <= i < |items| :: r.value[i] == UpgradeMessage(items[i]).value
    decreases |items|
  {
    if |items| == 0 then Success([])
    else
      var head :- UpgradeMessage(items[0]);
      var tail :- EachMessage(items[1..]);
      Success([head] + tail)
  }

  /** Version 8.1: default menu width and chat text size. */
  function MigrateV8_1Fix(st: Json, d: Defaults): Result<Json> {
    var s :- SetTop(st, "menuWidth", Some(d.menuWidth));
    SetTop(s, "displayChatSize", Some(d.displayChatSize))
  }

  /** Version 8.2: the default image detail where a chat has none
      (`== undefined` also holds for `null`). */
  function MigrateV8_2(st: Json, d: Defaults): Result<Json> {
    ForEachChat(st, FillImageDetail(d.imageDetail))
  }

  /** Version 9: `apiEndpoint` is renamed `apiBaseUrl`. The `in` operator
      throws on anything but an object. */
  function MigrateV9(st: Json): (r: Result<Json>)
    ensures r.Success? <==> st.Obj?
    ensures r.Success? ==> r.value.Obj? && "apiEndpoint" !in r.value.fields
    ensures r.Success? && "apiEndpoint" in st.fields ==>
      r.value.fields == (st.fields - {"apiEndpoint"})["apiBaseUrl" := st.fields["apiEndpoint"]]
    ensures r.Success? && "apiEndpoint" !in st.fields ==> r.value == st
  {
    if !st.Obj? then Failure("TypeError: cannot use 'in' on a non-object")
    else if "apiEndpoint" in st.fields then
      Success(Obj((st.fields["apiBaseUrl" := st.fields["apiEndpoint"]]) - {"apiEndpoint"}))
    else Success(st)
  }

  /** `if (x && !x.thinking_level) x.thinking_level = 'high'` for a chat
      configuration or the default configuration. A truthy array gets an
      own property that serialisation drops; a truthy primitive throws. */
  function FillThinkingLevel(v: Option<Json>): (r: Result<Option<Json>>)
    ensures r.Failure? <==> Truthy(v) && !v.value.Obj? && !v.value.Arr?
    ensures r.Success? && v.Some? && v.value.Obj? && !Truthy(Get(v.value.fields, "thinking_level")) ==>
      && r.value.Some? && r.value.value.Obj?
      && Get(r.value.value.fields, "thinking_level") == Some(Str("high"))
      && forall k | k != "thinking_level" :: Get(r.value.value.fields, k) == Get(v.value.fields, k)
    ensures r.Success? && !(v.Some? && v.value.Obj? && !Truthy(Get(v.value.fields, "thinking_level"))) ==> r.value == v
  {
    if !Truthy(v) then Success(v)
    else match v.value
      case Obj(f) =>
        if Truthy(Get(f, "thinking_level")) then Success(v) else Success(Some(Obj(f["thinking_level" := Str("high")])))
      case Arr(_) => Success(v)
      case _ => Failure("TypeError: cannot create property on a primitive")
  }

  /** One entry of the version-10 chat loop: `null` throws, a primitive has
      no `config`. */
  function FillChat(item: Json): (r: Result<Json>)
    ensures r.Success? <==> !item.Null? && (item.Obj? ==> FillThinkingLevel(Get(item.fields, "config")).Success?)
    ensures r.Success? && item.Obj? ==>
      && r.value.Obj?
      && Get(r.value.fields, "config") == FillThinkingLevel(Get(item.fields, "config")).value
      && forall k | k != "config" :: Get(r.value.fields, k) == Get(item.fields, k)
    ensures r.Success? && !item.Obj? ==> r.value == item
  {
    match item
    case Null => Failure("TypeError: chat is null")
    case Obj(c) =>
      var config :- FillThinkingLevel(Get(c, "config"));
      Success(Obj(Put(c, "config", config)))
    case _ => Success(item)
  }

  /** The chat loop of version 10: `for (const chat of chats)`. */
  function FillChats(items: seq<Json>): (r: Result<seq<Json>>)
    ensures r.Success? <==> forall i | 0 <= i < |items| :: FillChat(items[i]).Success?
    ensures r.Success? ==> |r.value| == |items| && forall i | 0 <= i < |items| :: r.value[i] == FillChat(items[i]).value
    decreases |items|
  {
    if |items| == 0 then Success([])
    else
      var head :- FillChat(items[0]);
      var tail :- FillChats(items[1..]);
      Success([head] + tail)
  }

  /** Whether the chat loop of version 10 gets through `chats`: nothing to do
      when it is falsy, a string iterates over characters that have no
      `config`, and anything else but an array is not iterable. */
  predicate ChatsFillable(chats: Option<Json>) {
    !Truthy(chats) || chats.value.Str? || (chats.value.Arr? && FillChats(chats.value.items).Success?)
  }

  /** A top-level setting version 10 fills in when it is absent. */
  predicate IsGeminiSetting(k: string) {
    k == "geminiApiKey" || k == "geminiVertexProjectId" || k == "geminiVertexLocation"
  }

  /** The first four statements of version 10 on the state's fields. */
  function FillSettings(f: map<string, Json>): (r: map<string, Json>)
    ensures Get(r, "apiProvider") == (if Truthy(Get(f, "apiProvider")) then Get(f, "apiProvider") else Some(Str("openai")))
    ensures forall k | IsGeminiSetting(k) && k in f :: Get(r, k) == Get(f, k)
    ensures "geminiApiKey" !in f ==> Get(r, "geminiApiKey") == Some(Str(""))
    ensures "geminiVertexProjectId" !in f ==> Get(r, "geminiVertexProjectId") == Some(Str(""))
    ensures "geminiVertexLocation" !in f ==> Get(r, "geminiVertexLocation") == Some(Str("us-central1"))
    ensures forall k | k != "apiProvider" && !IsGeminiSetting(k) :: Get(r, k) == Get(f, k)
  {
    var f1 := if Truthy(Get(f, "apiProvider")) then f else f["apiProvider" := Str("openai")];
    var f2 := if "geminiApiKey" in f1 then f1 else f1["geminiApiKey" := Str("")];
    var f3 := if "geminiVertexProjectId" in f2 then f2 else f2["geminiVertexProjectId" := Str("")];
    if "geminiVertexLocation" in f3 then f3 else f3["geminiVertexLocation" := Str("us-central1")]
  }

  /** The chat loop of version 10 on the state's fields. */
  function FillChatsField(f: map<string, Json>): (r: Result<map<string, Json>>)
    ensures r.Success? <==> ChatsFillable(Get(f, "chats"))
    ensures r.Success? && Get(f, "chats").Some? && f["chats"].Arr? ==>
      Get(r.value, "chats") == Some(Arr(FillChats(f["chats"].items).value))
    ensures r.Success? && !(Get(f, "chats").Some? && f["chats"].Arr?) ==> r.value == f
    ensures r.Success? ==> forall k | k != "chats" :: Get(r.value, k) == Get(f, k)
  {
    var chats := Get(f, "chats");
    if !Truthy(chats) then Success(f)
    else match chats.value
      case Arr(items) =>
        var filled :- FillChats(items);
        Success(f["chats" := Arr(filled)])
      case Str(_) => Success(f)
      case _ => Failure("TypeError: chats is not iterable")
  }

  /** Version 10: provider and Gemini settings and the thinking level are
      filled in where absent; present values are never overwritten. */
  function MigrateV10(st: Json): (r: Result<Json>)
    ensures r.Success? <==>
      && st.Obj? && ChatsFillable(Get(st.fields, "chats"))
      && FillThinkingLevel(Get(st.fields, "defaultChatConfig")).Success?
    ensures r.Success? ==>
      && r.value.Obj?
      && Get(r.value.fields, "defaultChatConfig") == FillThinkingLevel(Get(st.fields, "defaultChatConfig")).value
      && forall k | k != "chats" && k != "defaultChatConfig" :: Get(r.value.fields, k) == Get(FillSettings(st.fields), k)
    ensures r.Success? && Get(st.fields, "chats").Some? && st.fields["chats"].Arr? ==>
      Get(r.value.fields, "chats") == Some(Arr(FillChats(st.fields["chats"].items).value))
    ensures r.Success? && !(Get(st.fields, "chats").Some? && st.fields["chats"].Arr?) ==>
      Get(r.value.fields, "chats") == Get(st.fields, "chats")
  {
    if !st.Obj? then Failure("TypeError: state is not an object")
    else
      var f4 := FillSettings(st.fields);
      assert !IsGeminiSetting("chats") && !IsGeminiSetting("defaultChatConfig");
      assert Get(f4, "chats") == Get(st.fields, "chats");
      assert Get(f4, "defaultChatConfig") == Get(st.fields, "defaultChatConfig");
      var f5 :- FillChatsField(f4);
      assert Get(f5, "defaultChatConfig") == Get(st.fields, "defaultChatConfig");
      var dcc :- FillThinkingLevel(Get(f5, "defaultChatConfig"));
      Success(Obj(Put(f5, "defaultChatConfig", dcc)))
  }

  // The chain

  /** The versions `applyMigrations` knows, in the order of its `switch`. */
  const Ladder: seq<real> := [0.0, 1.0, 2.0, 3.0, 4.0, 5.0, 6.0, 7.0, 8.0, 8.1, 8.2, 9.0, 10.0]

  /** The migration at position `i` of the ladder. */
  function Migration(i: nat, st: Json, d: Defaults, uuid: nat -> string): Result<Json>
    requires i < |Ladder|
  {
    match i
    case 0 => MigrateV0(st, d)
    case 1 => MigrateV1(st)
    case 2 => MigrateV2(st, d)
    case 3 => MigrateV3(st, d)
    case 4 => MigrateV4(st, d)
    case 5 => MigrateV5(st)
    case 6 => MigrateV6(st)
    case 7 => MigrateV7(st, uuid)
    case 8 => MigrateV8_1(st, d)
    case 9 => MigrateV8_1Fix(st, d)
    case 10 => MigrateV8_2(st, d)
    case 11 => MigrateV9(st)
    case 12 => MigrateV10(st)
  }

  /** Every migration from position `i` to the end, in order. */
  function RunFrom(i: nat, st: Json, d: Defaults, uuid: nat -> string): Result<Json>
    requires i <= |Ladder|
    decreases |Ladder| - i
  {
    if i == |Ladder| then Success(st)
    else
      var next :- Migration(i, st, d, uuid);
      RunFrom(i + 1, next, d, uuid)
  }

  /** The position of `version` on the ladder. */
  function LadderIndex(version: real): (r: Option<nat>)
    ensures r.Some? <==> version in Ladder
    ensures r.Some? ==> r.value < |Ladder| && Ladder[r.value] == version
  {
    if version in Ladder then
      var i :| 0 <= i < |Ladder| && Ladder[i] == version;
      Some(i)
    else None
  }

  /** `applyMigrations`: enter the `switch` at the stored version and fall
      through to the end; an unknown version changes nothing. */
  function ApplyMigrations(st: Json, version: real, d: Defaults, uuid: nat -> string): (r: Result<Json>)
    ensures version !in Ladder ==> r == Success(st)
  {
    match LadderIndex(version)
    case None => Success(st)
    case Some(i) => RunFrom(i, st, d, uuid)
  }

  // Re-running a migration

  lemma UpgradeMessageIdempotent(m: Json)
    requires UpgradeMessage(m).Success?
    ensures UpgradeMessage(UpgradeMessage(m).value) == UpgradeMessage(m)
  {
  }

  /** A loop body applied to its own output changes nothing more. */
  lemma StepChatIdempotent(step: ChatStep, c: map<string, Json>)
    requires StepChat(step, c).Success?
    ensures StepChat(step, StepChat(step, c).value) == StepChat(step, c)
  {
    match step
    case UpgradeMessages =>
      var items := c["messages"].items;
      var up := EachMessage(items).value;
      forall i | 0 <= i < |up| ensures UpgradeMessage(up[i]) == Success(up[i]) {
        UpgradeMessageIdempotent(items[i]);
      }
      assert EachMessage(up).value == up;
      var c1 := c["messages" := Arr(up)];
      assert StepChat(step, c).value == c1;
      assert c1["messages" := Arr(up)] == c1;
    case Reconfig(o) =>
      var m := Spread(Get(c, "config"));
      var c1 := Reconfigure(c, o);
      assert Get(c1, "config") == Some(Obj(m + o));
      assert (m + o) + o == m + o;
      assert Reconfigure(c1, o) == c1;
    case TitleAndConfig(d) =>
      var c2 := StepChat(step, c).value;
      assert c2["titleSet" := Bool(false)] == c2;
    case FillImageDetail(detail) =>
      var c2 := StepChat(step, c).value;
      var v := Get(c, "imageDetail");
      if v.None? || v.value.Null? {
        assert c2["imageDetail" := detail] == c2;
      }
  }

  /** Version 1 run twice is version 1 run once: it reads only fields it
      does not write. */
  lemma MigrateV1Idempotent(st: Json)
    requires MigrateV1(st).Success?
    ensures MigrateV1(MigrateV1(st).value) == MigrateV1(st)
  {
    var once := MigrateV1(st).value;
    var twice := MigrateV1(once).value;
    SameGets(twice.fields, once.fields);
  }

  /** Version 6 run twice is version 6 run once: the replacement endpoint is
      not the retired one, and "" is already the empty key. */
  lemma MigrateV6Idempotent(st: Json)
    requires MigrateV6(st).Success?
    ensures MigrateV6(MigrateV6(st).value) == MigrateV6(st)
  {
    var once := MigrateV6(st).value;
    var twice := MigrateV6(once).value;
    SameGets(twice.fields, once.fields);
  }

  /** A loop whose body leaves every chat as it is leaves the state as it
      is. */
  lemma ForEachChatFixed(st: Json, step: ChatStep)
    requires st.Obj? && "chats" in st.fields && st.fields["chats"].Arr?
    requires forall i | 0 <= i < |ChatsOf(st)| ::
      ChatsOf(st)[i].Obj? && StepChat(step, ChatsOf(st)[i].fields) == Success(ChatsOf(st)[i].fields)
    ensures ForEachChat(st, step) == Success(st)
  {
    var r := ForEachChat(st, step).value;
    assert ChatsOf(r) == ChatsOf(st);
    assert r.fields == st.fields;
  }

  /** After a loop, every chat is a fixed point of the loop body. */
  lemma ForEachChatSettles(st: Json, step: ChatStep)
    requires ForEachChat(st, step).Success?
    ensures var r := ForEachChat(st, step).value;
      forall i | 0 <= i < |ChatsOf(r)| ::
        ChatsOf(r)[i].Obj? && StepChat(step, ChatsOf(r)[i].fields) == Success(ChatsOf(r)[i].fields)
  {
    forall i | 0 <= i < |ChatsOf(st)| {
      StepChatIdempotent(step, ChatsOf(st)[i].fields);
    }
  }

  lemma ForEachChatIdempotent(st: Json, step: ChatStep)
    requires ForEachChat(st, step).Success?
    ensures ForEachChat(ForEachChat(st, step).value, step) == ForEachChat(st, step)
  {
    ForEachChatSettles(st, step);
    ForEachChatFixed(ForEachChat(st, step).value, step);
  }

  lemma FillThinkingLevelIdempotent(v: Option<Json>)
    requires FillThinkingLevel(v).Success?
    ensures FillThinkingLevel(FillThinkingLevel(v).value) == FillThinkingLevel(v)
  {
  }

  lemma FillChatsIdempotent(items: seq<Json>)
    requires FillChats(items).Success?
    ensures FillChats(FillChats(items).value) == FillChats(items)
  {
    var filled := FillChats(items).value;
    forall i | 0 <= i < |items| ensures FillChat(filled[i]) == Success(filled[i]) {
      if items[i].Obj? {
        FillThinkingLevelIdempotent(Get(items[i].fields, "config"));
        PutGet(filled[i].fields, "config");
      }
    }
    assert FillChats(filled).value == filled;
  }

  /** Settings that are already filled in stay as they are. */
  lemma FillSettingsFixed(f: map<string, Json>)
    requires Truthy(Get(f, "apiProvider"))
    requires forall k | IsGeminiSetting(k) :: k in f
    ensures FillSettings(f) == f
  {
    assert IsGeminiSetting("geminiApiKey") && IsGeminiSetting("geminiVertexProjectId") && IsGeminiSetting("geminiVertexLocation");
  }

  /** A chat list the version-10 loop leaves as it is. */
  predicate ChatsSettled(chats: Option<Json>) {
    !Truthy(chats) || chats.value.Str? || (chats.value.Arr? && FillChats(chats.value.items) == Success(chats.value.items))
  }

  lemma FillChatsFieldFixed(f: map<string, Json>)
    requires ChatsSettled(Get(f, "chats"))
    ensures FillChatsField(f) == Success(f)
  {
    var chats := Get(f, "chats");
    if Truthy(chats) && chats.value.Arr? {
      assert f["chats" := chats.value] == f;
    }
  }

  /** Version 10 applied to its own output changes nothing more. */
  lemma MigrateV10Idempotent(st: Json)
    requires MigrateV10(st).Success?
    ensures MigrateV10(MigrateV10(st).value) == MigrateV10(st)
  {
    var r := MigrateV10(st).value;
    var f4 := FillSettings(st.fields);
    assert IsGeminiSetting("geminiApiKey") && IsGeminiSetting("geminiVertexProjectId") && IsGeminiSetting("geminiVertexLocation");
    assert Get(r.fields, "apiProvider") == Get(f4, "apiProvider");
    assert forall k | IsGeminiSetting(k) :: Get(r.fields, k) == Get(f4, k);
    FillSettingsFixed(r.fields);
    var chats := Get(st.fields, "chats");
    if chats.Some? && chats.value.Arr? {
      FillChatsIdempotent(chats.value.items);
    }
    assert ChatsSettled(Get(r.fields, "chats"));
    FillChatsFieldFixed(r.fields);
    FillThinkingLevelIdempotent(Get(st.fields, "defaultChatConfig"));
    PutGet(r.fields, "defaultChatConfig");
  }

  /** Version 9 applied to its own output changes nothing more. */
  lemma MigrateV9Idempotent(st: Json)
    requires MigrateV9(st).Success?
    ensures MigrateV9(MigrateV9(st).value) == MigrateV9(st)
  {
  }

  // Version 7

  /** `foldersExpanded[index]` fails for one index exactly when it fails for
      all. */
  lemma ExpandedAtUniform(fe: Option<Json>, i: nat, j: nat)
    ensures ExpandedAt(fe, i).Success? <==> ExpandedAt(fe, j).Success?
  {
  }

  /** The step of the folder loop at index `i`. */
  function NextBuild(names: seq<Json>, fe: Option<Json>, uuid: nat -> string, i: nat, acc: FolderBuild): FolderBuild
    requires i < |names|
    requires ExpandedAt(fe, i).Success?
  {
    var id := uuid(i);
    FolderBuild(map[id := FolderJson(id, names[i], ExpandedAt(fe, i).value, i)] + acc.folders, acc.idOf[names[i] := id])
  }

  lemma BuildFoldersUnfold(names: seq<Json>, fe: Option<Json>, uuid: nat -> string, i: nat, acc: FolderBuild)
    requires i < |names|
    requires BuildFolders(names, fe, uuid, i, acc).Success?
    ensures ExpandedAt(fe, i).Success?
    ensures BuildFolders(names, fe, uuid, i, acc) == BuildFolders(names, fe, uuid, i + 1, NextBuild(names, fe, uuid, i, acc))
  {
  }

  /** The loop never replaces a folder it already has. */
  lemma {:induction false} BuildFoldersKeepsFolders(names: seq<Json>, fe: Option<Json>, uuid: nat -> string, i: nat, acc: FolderBuild)
    requires i <= |names|
    requires BuildFolders(names, fe, uuid, i, acc).Success?
    ensures var r := BuildFolders(names, fe, uuid, i, acc).value;
      forall k | k in acc.folders :: r.folders[k] == acc.folders[k]
    decreases |names| - i
  {
    if i < |names| {
      BuildFoldersUnfold(names, fe, uuid, i, acc);
      var acc' := NextBuild(names, fe, uuid, i, acc);
      BuildFoldersKeepsFolders(names, fe, uuid, i + 1, acc');
      assert forall k | k in acc.folders :: acc'.folders[k] == acc.folders[k];
    }
  }

  lemma IdRangeStep(uuid: nat -> string, i: nat, n: nat)
    requires i < n
    ensures (set j | i <= j < n :: uuid(j)) == {uuid(i)} + set j | i + 1 <= j < n :: uuid(j)
  {
    var a, b := set j | i <= j < n :: uuid(j), set j | i + 1 <= j < n :: uuid(j);
    forall x | x in a ensures x in {uuid(i)} + b {
      var j :| i <= j < n && uuid(j) == x;
      if j > i { assert x in b; }
    }
  }

  lemma NameRangeStep(names: seq<Json>, i: nat)
    requires i < |names|
    ensures (set j | i <= j < |names| :: names[j]) == {names[i]} + set j | i + 1 <= j < |names| :: names[j]
  {
    var a, b := set j | i <= j < |names| :: names[j], set j | i + 1 <= j < |names| :: names[j];
    forall x | x in a ensures x in {names[i]} + b {
      var j :| i <= j < |names| && names[j] == x;
      if j > i { assert x in b; }
    }
  }

  lemma BuildFoldersKeepsFolder(names: seq<Json>, fe: Option<Json>, uuid: nat -> string, i: nat, acc: FolderBuild, k: string)
    requires i <= |names|
    requires BuildFolders(names, fe, uuid, i, acc).Success?
    requires k in acc.folders
    ensures k in BuildFolders(names, fe, uuid, i, acc).value.folders
    ensures BuildFolders(names, fe, uuid, i, acc).value.folders[k] == acc.folders[k]
  {
    BuildFoldersKeepsFolders(names, fe, uuid, i, acc);
  }

  /** The loop adds exactly the folders `uuid(i)`, ..., one per name. */
  lemma {:induction false} BuildFoldersKeys(names: seq<Json>, fe: Option<Json>, uuid: nat -> string, i: nat, acc: FolderBuild)
    requires i <= |names|
    requires BuildFolders(names, fe, uuid, i, acc).Success?
    ensures BuildFolders(names, fe, uuid, i, acc).value.folders.Keys == acc.folders.Keys + (set j | i <= j < |names| :: uuid(j))
    decreases |names| - i
  {
    if i < |names| {
      BuildFoldersUnfold(names, fe, uuid, i, acc);
      var acc' := NextBuild(names, fe, uuid, i, acc);
      BuildFoldersKeys(names, fe, uuid, i + 1, acc');
      assert acc'.folders.Keys == acc.folders.Keys + {uuid(i)};
      IdRangeStep(uuid, i, |names|);
    }
  }

  /** The ids `uuid(i)`, ... for the remaining names are pairwise different
      and none is a folder already built. */
  ghost predicate FreshFolderIds(names: seq<Json>, uuid: nat -> string, i: nat, folders: map<string, Json>) {
    && (forall j | i <= j < |names| :: uuid(j) !in folders)
    && (forall j, l | i <= j < l < |names| :: uuid(j) != uuid(l))
  }

  /** Folder `uuid(j)` holds the `j`-th name, the `j`-th entry of the
      expanded list and `order` j, for every `j` from `i` on. */
  ghost predicate FolderEntries(folders: map<string, Json>, names: seq<Json>, fe: Option<Json>, uuid: nat -> string, i: nat) {
    forall j | i <= j < |names| ::
      ExpandedAt(fe, j).Success? && uuid(j) in folders && folders[uuid(j)] == FolderJson(uuid(j), names[j], ExpandedAt(fe, j).value, j)
  }

  lemma FreshFolderIdsStep(names: seq<Json>, fe: Option<Json>, uuid: nat -> string, i: nat, acc: FolderBuild)
    requires i < |names| && ExpandedAt(fe, i).Success?
    requires FreshFolderIds(names, uuid, i, acc.folders)
    ensures FreshFolderIds(names, uuid, i + 1, NextBuild(names, fe, uuid, i, acc).folders)
  {
    var acc' := NextBuild(names, fe, uuid, i, acc);
    forall j | i + 1 <= j < |names| ensures uuid(j) !in acc'.folders {
      assert uuid(i) != uuid(j);
    }
  }

  lemma FolderEntriesStep(folders: map<string, Json>, names: seq<Json>, fe: Option<Json>, uuid: nat -> string, i: nat)
    requires i < |names| && ExpandedAt(fe, i).Success?
    requires FolderEntries(folders, names, fe, uuid, i + 1)
    requires uuid(i) in folders && folders[uuid(i)] == FolderJson(uuid(i), names[i], ExpandedAt(fe, i).value, i)
    ensures FolderEntries(folders, names, fe, uuid, i)
  {
  }

  /** With pairwise-distinct new ids, folder `uuid(j)` holds the `j`-th name,
      the `j`-th entry of the expanded list and `order` j. */
  lemma {:induction false} BuildFoldersEntries(names: seq<Json>, fe: Option<Json>, uuid: nat -> string, i: nat, acc: FolderBuild)
    requires i <= |names|
    requires BuildFolders(names, fe, uuid, i, acc).Success?
    requires FreshFolderIds(names, uuid, i, acc.folders)
    ensures FolderEntries(BuildFolders(names, fe, uuid, i, acc).value.folders, names, fe, uuid, i)
    decreases |names| - i
  {
    if i < |names| {
      BuildFoldersUnfold(names, fe, uuid, i, acc);
      FreshFolderIdsStep(names, fe, uuid, i, acc);
      BuildFoldersEntries(names, fe, uuid, i + 1, NextBuild(names, fe, uuid, i, acc));
      BuildFoldersEntriesStep(names, fe, uuid, i, acc);
    }
  }

  /** The step of the induction above: the folder added for name `i` survives
      the rest of the loop. */
  lemma BuildFoldersEntriesStep(names: seq<Json>, fe: Option<Json>, uuid: nat -> string, i: nat, acc: FolderBuild)
    requires i < |names| && ExpandedAt(fe, i).Success? && uuid(i) !in acc.folders
    requires BuildFolders(names, fe, uuid, i + 1, NextBuild(names, fe, uuid, i, acc)).Success?
    requires FolderEntries(BuildFolders(names, fe, uuid, i + 1, NextBuild(names, fe, uuid, i, acc)).value.folders, names, fe, uuid, i + 1)
    ensures FolderEntries(BuildFolders(names, fe, uuid, i + 1, NextBuild(names, fe, uuid, i, acc)).value.folders, names, fe, uuid, i)
  {
    var acc' := NextBuild(names, fe, uuid, i, acc);
    var r := BuildFolders(names, fe, uuid, i + 1, acc').value;
    var id := uuid(i);
    assert id in acc'.folders && acc'.folders[id] == FolderJson(id, names[i], ExpandedAt(fe, i).value, i);
    BuildFoldersKeepsFolder(names, fe, uuid, i + 1, acc', id);
    FolderEntriesStep(r.folders, names, fe, uuid, i);
  }

  /** The loop keeps the id of every name it does not meet. */
  lemma {:induction false} BuildFoldersKeepsNames(names: seq<Json>, fe: Option<Json>, uuid: nat -> string, i: nat, acc: FolderBuild)
    requires i <= |names|
    requires BuildFolders(names, fe, uuid, i, acc).Success?
    ensures var r := BuildFolders(names, fe, uuid, i, acc).value;
      forall n | n in acc.idOf && (forall l | i <= l < |names| :: names[l] != n) :: r.idOf[n] == acc.idOf[n]
    decreases |names| - i
  {
    if i < |names| {
      BuildFoldersUnfold(names, fe, uuid, i, acc);
      var acc' := NextBuild(names, fe, uuid, i, acc);
      BuildFoldersKeepsNames(names, fe, uuid, i + 1, acc');
      var r := BuildFolders(names, fe, uuid, i, acc).value;
      forall n | n in acc.idOf && (forall l | i <= l < |names| :: names[l] != n)
        ensures r.idOf[n] == acc.idOf[n]
      {
        assert n != names[i];
        assert acc'.idOf[n] == acc.idOf[n];
      }
    }
  }

  /** The loop gives an id to exactly the names it meets, besides those it
      had. */
  lemma {:induction false} BuildFoldersNameKeys(names: seq<Json>, fe: Option<Json>, uuid: nat -> string, i: nat, acc: FolderBuild)
    requires i <= |names|
    requires BuildFolders(names, fe, uuid, i, acc).Success?
    ensures BuildFolders(names, fe, uuid, i, acc).value.idOf.Keys == acc.idOf.Keys + (set j | i <= j < |names| :: names[j])
    decreases |names| - i
  {
    if i < |names| {
      BuildFoldersUnfold(names, fe, uuid, i, acc);
      var acc' := NextBuild(names, fe, uuid, i, acc);
      BuildFoldersNameKeys(names, fe, uuid, i + 1, acc');
      assert acc'.idOf.Keys == acc.idOf.Keys + {names[i]};
      NameRangeStep(names, i);
    }
  }

  /** The loop maps every name to the id of the last folder with that
      name. */
  lemma {:induction false} BuildFoldersLastId(names: seq<Json>, fe: Option<Json>, uuid: nat -> string, i: nat, acc: FolderBuild)
    requires i <= |names|
    requires BuildFolders(names, fe, uuid, i, acc).Success?
    ensures var r := BuildFolders(names, fe, uuid, i, acc).value;
      forall j | i <= j < |names| && (forall l | j < l < |names| :: names[l] != names[j]) :: r.idOf[names[j]] == uuid(j)
    decreases |names| - i
  {
    if i < |names| {
      BuildFoldersUnfold(names, fe, uuid, i, acc);
      var acc' := NextBuild(names, fe, uuid, i, acc);
      BuildFoldersLastId(names, fe, uuid, i + 1, acc');
      BuildFoldersKeepsNames(names, fe, uuid, i + 1, acc');
      assert names[i] in acc'.idOf && acc'.idOf[names[i]] == uuid(i);
    }
  }

  /** The folder a chat ends up in after version 7, given the name-to-id map
      the folder loop built from `names`. */
  lemma RefolderChatSpec(c: map<string, Json>, names: seq<Json>, idOf: map<Json, string>, uuid: nat -> string)
    requires idOf.Keys == set j | 0 <= j < |names| :: names[j]
    requires forall j | 0 <= j < |names| && (forall l | j < l < |names| :: names[l] != names[j]) :: idOf[names[j]] == uuid(j)
    ensures var folder, after := Get(c, "folder"), RefolderChat(c, idOf);
      && (!Truthy(folder) ==> after == c)
      && (Truthy(folder) && folder.value !in names ==> Get(after, "folder").None?)
      && (forall k | 0 <= k < |names| && Truthy(folder) && names[k] == folder.value && (forall l | k < l < |names| :: names[l] != names[k]) ::
            Get(after, "folder") == Some(Str(uuid(k))))
      && forall key | key != "folder" :: Get(after, key) == Get(c, key)
  {
    var folder := Get(c, "folder");
    if Truthy(folder) && folder.value !in names {
      assert folder.value !in idOf;
    }
  }

  /** How version 7 changes one chat: its folder name becomes the id of the
      last folder with that name, or disappears when no folder has it; a
      falsy folder is left alone; nothing but `folder` and `id` changes. */
  ghost predicate Refoldered(before: map<string, Json>, after: map<string, Json>, names: seq<Json>, uuid: nat -> string) {
    var folder := Get(before, "folder");
    && (!Truthy(folder) ==> Get(after, "folder") == folder)
    && (Truthy(folder) && folder.value !in names ==> Get(after, "folder").None?)
    && (forall k | 0 <= k < |names| && Truthy(folder) && names[k] == folder.value && (forall l | k < l < |names| :: names[l] != names[k]) ::
          Get(after, "folder") == Some(Str(uuid(k))))
    && forall key | key != "folder" && key != "id" :: Get(after, key) == Get(before, key)
  }

  /** One chat after version 7's second loop. */
  lemma RenumberedChat(before: map<string, Json>, names: seq<Json>, idOf: map<Json, string>, uuid: nat -> string, id: string)
    requires idOf.Keys == set j | 0 <= j < |names| :: names[j]
    requires forall j | 0 <= j < |names| && (forall l | j < l < |names| :: names[l] != names[j]) :: idOf[names[j]] == uuid(j)
    ensures var after := RefolderChat(before, idOf)["id" := Str(id)];
      Get(after, "id") == Some(Str(id)) && Refoldered(before, after, names, uuid)
  {
    RefolderChatSpec(before, names, idOf, uuid);
  }

  /** Version 7 with pairwise-distinct fresh ids: one folder per name, with
      the name's position as `order` and the parallel `expanded` entry. */
  lemma MigrateV7Folders(st: Json, uuid: nat -> string)
    requires MigrateV7(st, uuid).Success?
    requires forall j, l | 0 <= j < l :: uuid(j) != uuid(l)
    ensures var r, names := MigrateV7(st, uuid).value, st.fields["foldersName"].items;
      && Get(r.fields, "folders").Some? && r.fields["folders"].Obj?
      && r.fields["folders"].fields.Keys == (set j | 0 <= j < |names| :: uuid(j))
      && forall j | 0 <= j < |names| ::
           r.fields["folders"].fields[uuid(j)] == FolderJson(uuid(j), names[j], ExpandedAt(Get(st.fields, "foldersExpanded"), j).value, j)
  {
    var names := st.fields["foldersName"].items;
    var fe := Get(st.fields, "foldersExpanded");
    var start := FolderBuild(map[], map[]);
    BuildFoldersKeys(names, fe, uuid, 0, start);
    BuildFoldersEntries(names, fe, uuid, 0, start);
    assert FolderEntries(V7Folders(st, uuid).value.folders, names, fe, uuid, 0);
  }

  /** The name-to-id map version 7's folder loop builds: every name gets
      the id of its last folder. */
  lemma V7NameIds(st: Json, uuid: nat -> string)
    requires V7Folders(st, uuid).Success?
    ensures var idOf, names := V7Folders(st, uuid).value.idOf, st.fields["foldersName"].items;
      && idOf.Keys == (set j | 0 <= j < |names| :: names[j])
      && forall j | 0 <= j < |names| && (forall l | j < l < |names| :: names[l] != names[j]) :: idOf[names[j]] == uuid(j)
  {
    var names := st.fields["foldersName"].items;
    var fe := Get(st.fields, "foldersExpanded");
    var start := FolderBuild(map[], map[]);
    BuildFoldersNameKeys(names, fe, uuid, 0, start);
    BuildFoldersLastId(names, fe, uuid, 0, start);
  }

  /** Chat list `after` is `before` with chat `j` renumbered to fresh id
      number `|names| + j` and moved to the id of its folder. */
  ghost predicate ChatsRefoldered(before: seq<Json>, after: seq<Json>, names: seq<Json>, uuid: nat -> string) {
    && |after| == |before|
    && forall j | 0 <= j < |before| ::
         && before[j].Obj? && after[j].Obj?
         && Get(after[j].fields, "id") == Some(Str(uuid(|names| + j)))
         && Refoldered(before[j].fields, after[j].fields, names, uuid)
  }

  /** Version 7: every chat is moved to folder ids, and chat `j` gets the
      fresh id that follows the folders' ids. */
  lemma MigrateV7Chats(st: Json, uuid: nat -> string)
    requires MigrateV7(st, uuid).Success?
    ensures ChatsRefoldered(ChatsOf(st), ChatsOf(MigrateV7(st, uuid).value), st.fields["foldersName"].items, uuid)
  {
    var r := MigrateV7(st, uuid).value;
    var built := V7Folders(st, uuid).value;
    var names := st.fields["foldersName"].items;
    var before, after := ChatsOf(st), ChatsOf(r);
    assert |after| == |before|;
    assert forall j | 0 <= j < |before| ::
      before[j].Obj? && after[j] == Obj(RefolderChat(before[j].fields, built.idOf)["id" := Str(uuid(|names| + j))]);
    V7NameIds(st, uuid);
    ChatsRenumbered(before, after, names, built.idOf, uuid);
  }

  lemma ChatsRenumbered(before: seq<Json>, after: seq<Json>, names: seq<Json>, idOf: map<Json, string>, uuid: nat -> string)
    requires idOf.Keys == set j | 0 <= j < |names| :: names[j]
    requires forall j | 0 <= j < |names| && (forall l | j < l < |names| :: names[l] != names[j]) :: idOf[names[j]] == uuid(j)
    requires |after| == |before|
    requires forall j | 0 <= j < |before| ::
      before[j].Obj? && after[j] == Obj(RefolderChat(before[j].fields, idOf)["id" := Str(uuid(|names| + j))])
    ensures ChatsRefoldered(before, after, names, uuid)
  {
    forall j | 0 <= j < |before|
      ensures Get(after[j].fields, "id") == Some(Str(uuid(|names| + j)))
      ensures Refoldered(before[j].fields, after[j].fields, names, uuid)
    {
      RenumberedChat(before[j].fields, names, idOf, uuid, uuid(|names| + j));
    }
  }

  // The chain

  lemma LadderIncreasing()
    ensures forall i, j | 0 <= i < j < |Ladder| :: Ladder[i] < Ladder[j]
  {
  }

  /** Each version on the ladder enters the `switch` at its own case. */
  lemma LadderIndexOf(i: nat)
    requires i < |Ladder|
    ensures LadderIndex(Ladder[i]) == Some(i)
  {
    LadderIncreasing();
  }

  /** Entering the `switch` at the case for `Ladder[i]` runs that migration
      and then falls through to the next case. */
  lemma ApplyMigrationsFallThrough(st: Json, i: nat, d: Defaults, uuid: nat -> string)
    requires i + 1 < |Ladder|
    ensures ApplyMigrations(st, Ladder[i], d, uuid) ==
      match Migration(i, st, d, uuid)
      case Success(next) => ApplyMigrations(next, Ladder[i + 1], d, uuid)
      case Failure(e) => Failure(e)
  {
    LadderIndexOf(i);
    LadderIndexOf(i + 1);
  }

  /** The last case runs version 10 alone. */
  lemma ApplyMigrationsLast(st: Json, d: Defaults, uuid: nat -> string)
    ensures ApplyMigrations(st, 10.0, d, uuid) == MigrateV10(st)
  {
    LadderIndexOf(12);
    assert Ladder[12] == 10.0;
    assert Migration(12, st, d, uuid) == MigrateV10(st);
    match MigrateV10(st)
    case Success(next) =>
      assert RunFrom(13, next, d, uuid) == Success(next);
    case Failure(_) =>
  }
}
