/** The list edits and display derivations of one rendered message: moving
    it up or down, deleting it, dropping the last message before a
    regeneration, collapsing its reasoning block, and choosing the text and
    images it shows. Every edit copies the chat list and changes only the
    messages of the current chat. */
module ContentView {
  import opened Wrappers
  import opened ChatTypes

  datatype Direction = Up | Down

  /** The up button is rendered for every message but the first. */
  predicate UpOffered(index: nat) {
    index != 0
  }

  /** The down button is rendered for every message but the last. */
  predicate DownOffered(index: nat, messages: seq<Message>) {
    index != |messages| - 1
  }

  /** Whether `d` at `index` is offered on a list of messages that holds
      the message at `index`. */
  predicate Offered(messages: seq<Message>, index: nat, d: Direction) {
    index < |messages| && (if d == Up then UpOffered(index) else DownOffered(index, messages))
  }

  /** `handleMove`: the message trades places with its neighbour above or
      below. */
  function Move(messages: seq<Message>, index: nat, d: Direction): (r: seq<Message>)
    requires Offered(messages, index, d)
    ensures |r| == |messages|
    ensures var other := if d == Up then index - 1 else index + 1;
            0 <= other < |messages| && r[index] == messages[other] && r[other] == messages[index]
            && forall k :: 0 <= k < |messages| && k != index && k != other ==> r[k] == messages[k]
    ensures multiset(r) == multiset(messages)
  {
    var other := if d == Up then index - 1 else index + 1;
    messages[index := messages[other]][other := messages[index]]
  }

  /** Moving down and then moving the same message back up restores the list. */
  lemma MoveDownThenUp(messages: seq<Message>, index: nat)
    requires Offered(messages, index, Down)
    ensures Offered(Move(messages, index, Down), index + 1, Up)
    ensures Move(Move(messages, index, Down), index + 1, Up) == messages
  {
  }

  /** Moving up and then moving the same message back down restores the list. */
  lemma MoveUpThenDown(messages: seq<Message>, index: nat)
    requires Offered(messages, index, Up)
    ensures Offered(Move(messages, index, Up), index - 1, Down)
    ensures Move(Move(messages, index, Up), index - 1, Down) == messages
  {
  }

  /** `messages.splice(index, 1)`: removes the message at `index`, or nothing
      when there is none. */
  function Delete(messages: seq<Message>, index: nat): (r: seq<Message>)
    ensures index < |messages| ==> |r| == |messages| - 1
    ensures index >= |messages| ==> r == messages
    ensures forall k :: 0 <= k < |r| ==> r[k] == (if k < index then messages[k] else messages[k + 1])
  {
    if index < |messages| then messages[..index] + messages[index + 1..] else messages
  }

  /** Deleting a message leaves every other message, in order, and the
      deleted one is the only one missing. */
  lemma DeleteKeepsOthers(messages: seq<Message>, index: nat)
    requires index < |messages|
    ensures multiset(Delete(messages, index)) + multiset{messages[index]} == multiset(messages)
  {
    assert messages == messages[..index] + [messages[index]] + messages[index + 1..];
  }

  /** `handleRefresh`'s list edit: `splice(length - 1, 1)`, which on an
      empty list removes nothing. */
  function Refresh(messages: seq<Message>): (r: seq<Message>)
    ensures |messages| > 0 ==> |r| == |messages| - 1 && r + [messages[|messages| - 1]] == messages
    ensures |messages| == 0 ==> r == []
  {
    if |messages| == 0 then [] else messages[..|messages| - 1]
  }

  /** Refreshing is deleting the last message. */
  lemma RefreshIsDeleteLast(messages: seq<Message>)
    requires |messages| > 0
    ensures Refresh(messages) == Delete(messages, |messages| - 1)
  {
  }

  /** The regenerate button is rendered on the last message of the chat when
      it is the assistant's and no generation is running. */
  predicate RefreshOffered(messages: seq<Message>, index: nat, generating: bool) {
    !generating && index < |messages| && messages[index].role == Assistant && index == |messages| - 1
  }

  /** Where the regenerate button is offered, the message it drops is the
      one it is shown on, and what remains ends before it. */
  lemma RefreshDropsThisMessage(messages: seq<Message>, index: nat, generating: bool)
    requires RefreshOffered(messages, index, generating)
    ensures Refresh(messages) == Delete(messages, index)
    ensures Refresh(messages) == messages[..index]
  {
  }

  /** `reasoningEntry.isCollapsed = !isOpen` on the first reasoning item;
      `None` when the message has no reasoning item and nothing is committed. */
  function ToggleReasoning(content: seq<ContentItem>, isOpen: bool): (r: Option<seq<ContentItem>>)
    ensures r.None? <==> FirstReasoning(content).None?
    ensures r.Some? ==>
      var k := FirstReasoning(content).value;
      |r.value| == |content|
      && r.value[k].Reasoning?
      && r.value[k].isCollapsed == !isOpen
      && r.value[k].text == content[k].text
      && r.value[k].isCompleted == content[k].isCompleted
      && r.value[k].durationSeconds == content[k].durationSeconds
      && forall j :: 0 <= j < |content| && j != k ==> r.value[j] == content[j]
  {
    match FirstReasoning(content)
    case None => None
    case Some(k) => Some(content[k := content[k].(isCollapsed := !isOpen)])
  }

  /** Whether the reasoning block renders, and if so whether it is open
      (`open={!isCollapsed}`): `None` when there is no block, which is the
      case without a reasoning item and also when its text is empty, since
      the block is guarded by the reasoning text's truthiness. */
  function ReasoningOpen(content: seq<ContentItem>): (r: Option<bool>)
    ensures r.None? <==> FirstReasoning(content).None? || content[FirstReasoning(content).value].text == ""
    ensures r.Some? ==> r.value == !content[FirstReasoning(content).value].isCollapsed
  {
    match FirstReasoning(content)
    case None => None
    case Some(k) => if content[k].text == "" then None else Some(!content[k].isCollapsed)
  }

  /** After a toggle a rendered block is open as the browser reported it, an
      empty one stays unrendered, and the last of two toggles decides. */
  lemma ToggleReasoningSettles(content: seq<ContentItem>, a: bool, b: bool)
    requires FirstReasoning(content).Some?
    ensures ReasoningOpen(ToggleReasoning(content, a).value)
      == if content[FirstReasoning(content).value].text == "" then None else Some(a)
    ensures ToggleReasoning(ToggleReasoning(content, a).value, b) == ToggleReasoning(content, b)
  {
    var k := FirstReasoning(content).value;
    var t := ToggleReasoning(content, a).value;
    FirstReasoningAfterEdit(content, t, k);
    assert t[k := t[k].(isCollapsed := !b)] == content[k := content[k].(isCollapsed := !b)];
  }

  /** An edit that keeps which items are reasoning items keeps the first one. */
  lemma FirstReasoningAfterEdit(content: seq<ContentItem>, edited: seq<ContentItem>, k: nat)
    requires FirstReasoning(content) == Some(k)
    requires |edited| == |content|
    requires forall j :: 0 <= j < |content| ==> edited[j].Reasoning? == content[j].Reasoning?
    ensures FirstReasoning(edited) == Some(k)
  {
    assert edited[k].Reasoning?;
    var r := FirstReasoning(edited);
    assert r.Some?;
    assert r.value <= k;
    assert content[r.value].Reasoning?;
  }

  /** The completion shown in the block's title: `isCompleted` when it is
      recorded, otherwise whether a duration is recorded; false without a
      reasoning item. */
  function ReasoningCompleted(content: seq<ContentItem>): (r: bool)
    ensures FirstReasoning(content).None? ==> !r
    ensures FirstReasoning(content).Some? ==>
      var item := content[FirstReasoning(content).value];
      (item.isCompleted.Some? ==> (r <==> item.isCompleted.value))
      && (item.isCompleted.None? ==> (r <==> item.durationSeconds.Some?))
  {
    match FirstReasoning(content)
    case None => false
    case Some(k) => content[k].isCompleted.GetOr(content[k].durationSeconds.Some?)
  }

  /** The seconds shown in the block's title, 0 when none are recorded. */
  function ReasoningSeconds(content: seq<ContentItem>): (r: nat)
    ensures FirstReasoning(content).Some? && content[FirstReasoning(content).value].durationSeconds.Some?
        ==> r == content[FirstReasoning(content).value].durationSeconds.value
    ensures FirstReasoning(content).None? || content[FirstReasoning(content).value].durationSeconds.None? ==> r == 0
  {
    match FirstReasoning(content)
    case None => 0
    case Some(k) => content[k].durationSeconds.GetOr(0)
  }

  /** Collapsing the block changes neither its title's completion nor its
      seconds. */
  lemma ToggleKeepsTitle(content: seq<ContentItem>, isOpen: bool)
    requires FirstReasoning(content).Some?
    ensures ReasoningCompleted(ToggleReasoning(content, isOpen).value) == ReasoningCompleted(content)
    ensures ReasoningSeconds(ToggleReasoning(content, isOpen).value) == ReasoningSeconds(content)
  {
    var k := FirstReasoning(content).value;
    FirstReasoningAfterEdit(content, ToggleReasoning(content, isOpen).value, k);
  }

  /** The image items of a list, in order. */
  function Images(items: seq<ContentItem>): (r: seq<ContentItem>)
    ensures forall x :: x in r ==> x.Image? && x in items
    ensures |r| <= |items|
  {
    if |items| == 0 then []
    else Images(items[..|items| - 1]) + (if items[|items| - 1].Image? then [items[|items| - 1]] else [])
  }

  /** Selecting images commutes with concatenation. */
  lemma {:induction false} ImagesConcat(a: seq<ContentItem>, b: seq<ContentItem>)
    ensures Images(a + b) == Images(a) + Images(b)
    decreases |b|
  {
    if |b| == 0 {
      assert a + b == a;
    } else {
      var b' := b[..|b| - 1];
      assert (a + b)[..|a + b| - 1] == a + b';
      ImagesConcat(a, b');
    }
  }

  /** The images shown under the text: the image items after the first item. */
  function DisplayedImages(content: seq<ContentItem>): (r: seq<ContentItem>)
    ensures |content| > 0 ==> r == Images(content[1..])
    ensures |content| == 0 ==> r == []
  {
    if |content| == 0 then [] else Images(content[1..])
  }

  /** An image in the first position is never shown among the images, and
      every later image is. */
  lemma DisplayedImagesSkipFirst(content: seq<ContentItem>, j: nat)
    requires 0 < j < |content| && content[j].Image?
    ensures content[j] in DisplayedImages(content)
  {
    var tail := content[1..];
    assert tail == tail[..j - 1] + [content[j]] + tail[j..];
    ImagesConcat(tail[..j - 1] + [content[j]], tail[j..]);
    ImagesConcat(tail[..j - 1], [content[j]]);
    assert Images([content[j]]) == [content[j]] by {
      assert [content[j]][..0] == [];
    }
  }

  /** Collapsing the reasoning block changes neither the text nor the
      images shown. */
  lemma ToggleKeepsDisplay(content: seq<ContentItem>, isOpen: bool)
    requires FirstReasoning(content).Some?
    ensures FirstText(ToggleReasoning(content, isOpen).value) == FirstText(content)
    ensures DisplayedImages(ToggleReasoning(content, isOpen).value) == DisplayedImages(content)
  {
    var t := ToggleReasoning(content, isOpen).value;
    SameNonReasoning(content, t);
  }

  /** Two lists that differ only inside reasoning items show the same text
      and the same images. */
  lemma {:induction false} SameNonReasoning(a: seq<ContentItem>, b: seq<ContentItem>)
    requires |a| == |b|
    requires forall j :: 0 <= j < |a| ==> a[j].Reasoning? == b[j].Reasoning?
    requires forall j :: 0 <= j < |a| && !a[j].Reasoning? ==> a[j] == b[j]
    ensures FirstText(a) == FirstText(b)
    ensures DisplayedImages(a) == DisplayedImages(b)
    decreases |a|
  {
    if |a| > 0 {
      SameNonReasoning(a[1..], b[1..]);
      SameImages(a[1..], b[1..]);
    }
  }

  lemma {:induction false} SameImages(a: seq<ContentItem>, b: seq<ContentItem>)
    requires |a| == |b|
    requires forall j :: 0 <= j < |a| ==> a[j].Reasoning? == b[j].Reasoning?
    requires forall j :: 0 <= j < |a| && !a[j].Reasoning? ==> a[j] == b[j]
    ensures Images(a) == Images(b)
    decreases |a|
  {
    if |a| > 0 {
      SameImages(a[..|a| - 1], b[..|b| - 1]);
    }
  }

  /** Replace the messages of the chat at `chatIndex`; every other chat and
      every other field is unchanged. */
  function WithMessages(chats: seq<Chat>, chatIndex: nat, messages: seq<Message>): (r: seq<Chat>)
    requires chatIndex < |chats|
    ensures |r| == |chats|
    ensures r[chatIndex] == chats[chatIndex].(messages := messages)
    ensures forall k :: 0 <= k < |chats| && k != chatIndex ==> r[k] == chats[k]
  {
    chats[chatIndex := chats[chatIndex].(messages := messages)]
  }

  /** `handleMove` on the store's chats. */
  function HandleMove(chats: seq<Chat>, chatIndex: nat, index: nat, d: Direction): (r: seq<Chat>)
    requires chatIndex < |chats| && Offered(chats[chatIndex].messages, index, d)
    ensures |r| == |chats| && r[chatIndex].messages == Move(chats[chatIndex].messages, index, d)
    ensures forall k :: 0 <= k < |chats| && k != chatIndex ==> r[k] == chats[k]
    ensures r[chatIndex].(messages := chats[chatIndex].messages) == chats[chatIndex]
  {
    WithMessages(chats, chatIndex, Move(chats[chatIndex].messages, index, d))
  }

  /** `handleDelete` on the store's chats. */
  function HandleDelete(chats: seq<Chat>, chatIndex: nat, index: nat): (r: seq<Chat>)
    requires chatIndex < |chats|
    ensures |r| == |chats| && r[chatIndex].messages == Delete(chats[chatIndex].messages, index)
    ensures forall k :: 0 <= k < |chats| && k != chatIndex ==> r[k] == chats[k]
    ensures r[chatIndex].(messages := chats[chatIndex].messages) == chats[chatIndex]
  {
    WithMessages(chats, chatIndex, Delete(chats[chatIndex].messages, index))
  }

  /** `handleRefresh`'s edit of the store's chats, before it resubmits. */
  function HandleRefresh(chats: seq<Chat>, chatIndex: nat): (r: seq<Chat>)
    requires chatIndex < |chats|
    ensures |r| == |chats| && r[chatIndex].messages == Refresh(chats[chatIndex].messages)
    ensures forall k :: 0 <= k < |chats| && k != chatIndex ==> r[k] == chats[k]
    ensures r[chatIndex].(messages := chats[chatIndex].messages) == chats[chatIndex]
  {
    WithMessages(chats, chatIndex, Refresh(chats[chatIndex].messages))
  }

  /** `handleReasoningToggle` on the store's chats: `None` when nothing is
      committed. */
  function HandleReasoningToggle(chats: seq<Chat>, chatIndex: nat, index: nat, isOpen: bool): (r: Option<seq<Chat>>)
    requires chatIndex < |chats| && index < |chats[chatIndex].messages|
    ensures r.None? <==> FirstReasoning(chats[chatIndex].messages[index].content).None?
    ensures r.Some? ==>
      var msgs := chats[chatIndex].messages;
      |r.value| == |chats|
      && r.value[chatIndex].messages
         == msgs[index := msgs[index].(content := ToggleReasoning(msgs[index].content, isOpen).value)]
      && r.value[chatIndex].(messages := msgs) == chats[chatIndex]
      && forall k :: 0 <= k < |chats| && k != chatIndex ==> r.value[k] == chats[k]
  {
    var msgs := chats[chatIndex].messages;
    match ToggleReasoning(msgs[index].content, isOpen)
    case None => None
    case Some(content) => Some(WithMessages(chats, chatIndex, msgs[index := msgs[index].(content := content)]))
  }
}
