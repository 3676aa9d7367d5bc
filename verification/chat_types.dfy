/** The chat data model shared by the store, the submit hook and the views:
    content items, messages, chats, folders and generation settings. */
module ChatTypes {
  import opened Wrappers

  datatype Role = User | Assistant | System

  /** The role's wire name. */
  function RoleName(r: Role): string {
    match r
    case User => "user"
    case Assistant => "assistant"
    case System => "system"
  }

  datatype ThinkingLevel = Minimal | Low | Medium | High

  /** One element of a message's content array. A reasoning item carries the
      display state of the reasoning block; `isCompleted` may be absent in
      transcripts written by older versions. An image item has no `text`
      property of its own; `strayText` is the one answer text appended to an
      image in front gives it (see `ReasoningBlocks.AppendAnswer`), `None`
      while it is absent. */
  datatype ContentItem =
    | Text(text: string)
    | Image(url: string, detail: string, strayText: Option<string>)
    | Reasoning(text: string, isCollapsed: bool, isCompleted: Option<bool>, durationSeconds: Option<nat>)

  datatype Message = Message(role: Role, content: seq<ContentItem>)

  /** The per-chat generation configuration. Sampling parameters are passed
      through untouched and are kept as opaque reals. */
  datatype ChatConfig = ChatConfig(
    model: string,
    maxTokens: int,
    temperature: real,
    topP: real,
    presencePenalty: real,
    frequencyPenalty: real,
    thinkingLevel: Option<ThinkingLevel>)

  /** A chat; an `id` of "" stands for a missing id. */
  datatype Chat = Chat(
    id: string,
    title: string,
    messages: seq<Message>,
    config: ChatConfig,
    titleSet: bool,
    folder: Option<string>)

  datatype Folder = Folder(id: string, name: string, expanded: bool, order: int, color: Option<string>)

  /** The index of the first reasoning item (`findIndex(isReasoningContent)`). */
  function FirstReasoning(content: seq<ContentItem>): (r: Option<nat>)
    ensures r.Some? ==> r.value < |content| && content[r.value].Reasoning?
    ensures r.Some? ==> forall j :: 0 <= j < r.value ==> !content[j].Reasoning?
    ensures r.None? <==> forall j :: 0 <= j < |content| ==> !content[j].Reasoning?
  {
    if |content| == 0 then None
    else if content[0].Reasoning? then Some(0)
    else match FirstReasoning(content[1..])
      case None => None
      case Some(i) => Some(i + 1)
  }

  /** The text of the first text item, or "" when there is none: the text a
      message shows and the text it contributes to a token count. */
  function FirstText(content: seq<ContentItem>): (r: string)
    ensures (forall j :: 0 <= j < |content| ==> !content[j].Text?) ==> r == ""
    ensures (exists j :: 0 <= j < |content| && content[j].Text?) ==>
      exists j :: 0 <= j < |content| && content[j] == Text(r)
        && forall i :: 0 <= i < j ==> !content[i].Text?
  {
    if |content| == 0 then ""
    else if content[0].Text? then content[0].text
    else
      var r := FirstText(content[1..]);
      assert forall j :: 1 <= j < |content| ==> content[1..][j - 1] == content[j];
      r
  }

  /** The ids of a list of chats, in order. */
  function Ids(chats: seq<Chat>): (r: seq<string>)
    ensures |r| == |chats|
    ensures forall i :: 0 <= i < |chats| ==> r[i] == chats[i].id
  {
    seq(|chats|, i requires 0 <= i < |chats| => chats[i].id)
  }
}
