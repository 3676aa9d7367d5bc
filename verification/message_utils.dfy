/** Token accounting (src/utils/messageUtils.ts): a transcript is written out
    in the chat markup `<|im_start|>role<sep>text<|im_end|>`, handed to the
    tokenizer, and the number of tokens is added to a per-model running
    total. The tokenizer itself is not part of this model: it is a parameter
    `encode` from text to token ids. */
module MessageUtils {
  import opened Wrappers
  import opened Strings
  import opened ChatTypes
  import opened ReasoningBlocks

  const ImStart := "<|im_start|>"
  const ImEnd := "<|im_end|>"
  const ImSep := "<|im_sep|>"

  /** The one model whose transcripts use newlines as separators. */
  const Gpt35Turbo := "gpt-3.5-turbo"

  /** The text placed between two messages. */
  function MessageSeparator(model: string): (r: string)
    ensures r == "\n" <==> model == Gpt35Turbo
    ensures r == "" <==> model != Gpt35Turbo
  {
    if model == Gpt35Turbo then "\n" else ""
  }

  /** The text placed between a message's role and its text. */
  function RoleSeparator(model: string): (r: string)
    ensures r == "\n" <==> model == Gpt35Turbo
    ensures r == ImSep <==> model != Gpt35Turbo
  {
    if model == Gpt35Turbo then "\n" else ImSep
  }

  /** One message in the markup; only its role and its first text item are
      written, whatever else its content holds. */
  function MessageMarkup(m: Message, roleSep: string): string {
    ImStart + RoleName(m.role) + roleSep + FirstText(m.content) + ImEnd
  }

  /** The markup of each message, in order. */
  function Markups(messages: seq<Message>, roleSep: string): (r: seq<string>)
    ensures |r| == |messages|
    ensures forall i | 0 <= i < |r| :: r[i] == MessageMarkup(messages[i], roleSep)
  {
    seq(|messages|, i requires 0 <= i < |messages| => MessageMarkup(messages[i], roleSep))
  }

  /** The cue that asks for the assistant's reply. */
  function AssistantCue(model: string): string {
    ImStart + "assistant" + RoleSeparator(model)
  }

  /** The messages' markups, joined by the message separator. */
  function Body(messages: seq<Message>, model: string): string {
    Join(Markups(messages, RoleSeparator(model)), MessageSeparator(model))
  }

  /** The text `getChatGPTEncoding` hands to the tokenizer: the body and the
      assistant cue, joined by the message separator. */
  function Serialize(messages: seq<Message>, model: string): (r: string)
    ensures r == Body(messages, model) + MessageSeparator(model) + AssistantCue(model)
    ensures |messages| == 0 ==> r == MessageSeparator(model) + AssistantCue(model)
    ensures |messages| == 1 ==>
      r == ImStart + RoleName(messages[0].role) + RoleSeparator(model) + FirstText(messages[0].content) + ImEnd
        + MessageSeparator(model) + AssistantCue(model)
  {
    assert [Body(messages, model), AssistantCue(model)][..1] == [Body(messages, model)];
    Join([Body(messages, model), AssistantCue(model)], MessageSeparator(model))
  }

  /** `countTokens`: no tokens for no messages, otherwise the length of the
      encoded transcript. */
  function CountTokens(messages: seq<Message>, model: string, encode: string -> seq<int>): (n: nat)
    ensures |messages| == 0 ==> n == 0
    ensures |messages| > 0 ==> n == |encode(Serialize(messages, model))|
  {
    if |messages| == 0 then 0 else |encode(Serialize(messages, model))|
  }

  /** Joining two non-empty lists is joining each and putting one separator
      between them. */
  lemma {:induction false} JoinConcat(a: seq<string>, b: seq<string>, sep: string)
    requires |a| > 0 && |b| > 0
    ensures Join(a + b, sep) == Join(a, sep) + sep + Join(b, sep)
    decreases |b|
  {
    var n := |b| - 1;
    assert (a + b)[..|a + b| - 1] == a + b[..n];
    if n == 0 {
      assert a + b[..n] == a;
    } else {
      JoinConcat(a, b[..n], sep);
    }
  }

  /** The body of two transcripts one after the other is the two bodies
      joined by the message separator: messages are written independently. */
  lemma BodyConcat(a: seq<Message>, b: seq<Message>, model: string)
    requires |a| > 0 && |b| > 0
    ensures Body(a + b, model) == Body(a, model) + MessageSeparator(model) + Body(b, model)
  {
    var sep := RoleSeparator(model);
    MarkupsConcat(a, b, sep);
    JoinConcat(Markups(a, sep), Markups(b, sep), MessageSeparator(model));
  }

  lemma MarkupsConcat(a: seq<Message>, b: seq<Message>, roleSep: string)
    ensures Markups(a + b, roleSep) == Markups(a, roleSep) + Markups(b, roleSep)
  {
    var l, r := Markups(a + b, roleSep), Markups(a, roleSep) + Markups(b, roleSep);
    forall i | 0 <= i < |l| ensures l[i] == r[i] {
      if i < |a| {
        assert (a + b)[i] == a[i];
      } else {
        assert (a + b)[i] == b[i - |a|];
      }
    }
  }

  /** For every model but gpt-3.5-turbo the separator is empty, so the body
      is the plain concatenation of the messages' markups. */
  lemma {:induction false} BodyIsConcatenation(messages: seq<Message>, model: string)
    requires model != Gpt35Turbo && |messages| > 0
    ensures |messages| > 1 ==>
      Body(messages, model) == Body(messages[..|messages| - 1], model) + MessageMarkup(messages[|messages| - 1], ImSep)
    ensures |messages| == 1 ==> Body(messages, model) == MessageMarkup(messages[0], ImSep)
  {
    var n := |messages| - 1;
    if n > 0 {
      assert messages == messages[..n] + [messages[n]];
      BodyConcat(messages[..n], [messages[n]], model);
    }
  }

  /** Two transcripts that agree on every message's role and first text. */
  predicate SameTranscript(a: seq<Message>, b: seq<Message>) {
    |a| == |b|
    && forall i | 0 <= i < |a| :: a[i].role == b[i].role && FirstText(a[i].content) == FirstText(b[i].content)
  }

  /** The serialisation, and with it the token count, depends only on the
      roles and first texts: images and reasoning items count for nothing. */
  lemma SerializeDependsOnTranscript(a: seq<Message>, b: seq<Message>, model: string, encode: string -> seq<int>)
    requires SameTranscript(a, b)
    ensures Serialize(a, model) == Serialize(b, model)
    ensures CountTokens(a, model, encode) == CountTokens(b, model, encode)
  {
    var sep := RoleSeparator(model);
    assert Markups(a, sep) == Markups(b, sep);
  }

  /** Removing reasoning items keeps the first text item. */
  lemma {:induction false} StripKeepsFirstText(c: seq<ContentItem>)
    ensures FirstText(StripReasoningFromContent(c)) == FirstText(c)
    decreases |c|
  {
    if |c| > 0 {
      StripKeepsFirstText(c[1..]);
      if !c[0].Reasoning? {
        assert ([c[0]] + StripReasoningFromContent(c[1..]))[1..] == StripReasoningFromContent(c[1..]);
      }
    }
  }

  /** A transcript counts as many tokens with its reasoning stripped as
      without: the reasoning the submit hook strips before sending was never
      counted. */
  lemma StripKeepsCount(messages: seq<Message>, model: string, encode: string -> seq<int>)
    ensures CountTokens(StripReasoningFromMessages(messages), model, encode) == CountTokens(messages, model, encode)
  {
    var stripped := StripReasoningFromMessages(messages);
    forall i | 0 <= i < |messages|
      ensures stripped[i].role == messages[i].role && FirstText(stripped[i].content) == FirstText(messages[i].content)
    {
      StripKeepsFirstText(messages[i].content);
    }
    SerializeDependsOnTranscript(stripped, messages, model, encode);
  }

  predicate HasText(m: Message) {
    exists j | 0 <= j < |m.content| :: m.content[j].Text?
  }

  predicate HasImage(m: Message) {
    exists j | 0 <= j < |m.content| :: m.content[j].Image?
  }

  /** `filter`: the messages that satisfy `p`, in order. */
  function Having(messages: seq<Message>, p: Message -> bool): (r: seq<Message>)
    ensures |r| <= |messages|
    ensures forall m :: m in r <==> m in messages && p(m)
    ensures (forall i | 0 <= i < |messages| :: p(messages[i])) ==> r == messages
  {
    if |messages| == 0 then []
    else
      var prev := Having(messages[..|messages| - 1], p);
      var last := messages[|messages| - 1];
      assert messages == messages[..|messages| - 1] + [last];
      assert forall m | m in messages :: m in messages[..|messages| - 1] || m == last;
      if p(last) then prev + [last] else prev
  }

  /** The stored counters of one model; any of them may be missing. */
  datatype TokenUsage = TokenUsage(promptTokens: Option<int>, completionTokens: Option<int>, imageTokens: Option<int>)

  /** The counters as `updateTotalTokenUsed` reads them: a missing model or a
      missing counter reads as 0. */
  datatype Totals = Totals(prompt: int, completion: int, image: int)

  function Read(total: map<string, TokenUsage>, model: string): (t: Totals)
    ensures model !in total ==> t == Totals(0, 0, 0)
    ensures model in total ==>
      (t.prompt == total[model].promptTokens.GetOr(0)
       && t.completion == total[model].completionTokens.GetOr(0) && t.image == total[model].imageTokens.GetOr(0))
  {
    if model in total then
      Totals(total[model].promptTokens.GetOr(0), total[model].completionTokens.GetOr(0), total[model].imageTokens.GetOr(0))
    else Totals(0, 0, 0)
  }

  /** The tokens one round adds: prompts with a text item count as prompt
      tokens, prompts with an image item as image tokens (a prompt with both
      counts twice), the completion as completion tokens. */
  function NewTokens(model: string, prompts: seq<Message>, completion: Message, encode: string -> seq<int>): (t: Totals)
    ensures t.prompt >= 0 && t.completion >= 0 && t.image >= 0
    ensures t.completion == |encode(Serialize([completion], model))|
    ensures (forall i | 0 <= i < |prompts| :: !HasText(prompts[i])) ==> t.prompt == 0
    ensures (forall i | 0 <= i < |prompts| :: !HasImage(prompts[i])) ==> t.image == 0
  {
    var text := Having(prompts, HasText);
    var images := Having(prompts, HasImage);
    assert (forall i | 0 <= i < |prompts| :: !HasText(prompts[i])) ==> |text| == 0 by {
      if |text| > 0 { assert text[0] in text; }
    }
    assert (forall i | 0 <= i < |prompts| :: !HasImage(prompts[i])) ==> |images| == 0 by {
      if |images| > 0 { assert images[0] in images; }
    }
    Totals(CountTokens(text, model, encode), CountTokens([completion], model, encode), CountTokens(images, model, encode))
  }

  function Add(a: Totals, b: Totals): Totals {
    Totals(a.prompt + b.prompt, a.completion + b.completion, a.image + b.image)
  }

  /** `updateTotalTokenUsed`: only the entry of `model` is written, with all
      three counters present, each grown by this round's count. */
  function UpdateTotalTokenUsed(total: map<string, TokenUsage>, model: string, prompts: seq<Message>,
                                completion: Message, encode: string -> seq<int>): (r: map<string, TokenUsage>)
    ensures r.Keys == total.Keys + {model}
    ensures forall k | k in total && k != model :: r[k] == total[k]
    ensures r[model].promptTokens.Some? && r[model].completionTokens.Some? && r[model].imageTokens.Some?
    ensures Read(r, model) == Add(Read(total, model), NewTokens(model, prompts, completion, encode))
  {
    var sum := Add(Read(total, model), NewTokens(model, prompts, completion, encode));
    total[model := TokenUsage(Some(sum.prompt), Some(sum.completion), Some(sum.image))]
  }

  /** The counters never go down, and every other model reads as before. */
  lemma UpdateNeverDecreases(total: map<string, TokenUsage>, model: string, prompts: seq<Message>,
                             completion: Message, encode: string -> seq<int>, other: string)
    ensures var before := Read(total, other);
      var after := Read(UpdateTotalTokenUsed(total, model, prompts, completion, encode), other);
      before.prompt <= after.prompt && before.completion <= after.completion && before.image <= after.image
    ensures other != model ==> Read(UpdateTotalTokenUsed(total, model, prompts, completion, encode), other) == Read(total, other)
  {
  }

  /** Two updates for one model add up: the counters grow by the sum of
      both rounds' counts. */
  lemma UpdatesAccumulate(total: map<string, TokenUsage>, model: string, p1: seq<Message>, c1: Message,
                          p2: seq<Message>, c2: Message, encode: string -> seq<int>)
    ensures var twice := UpdateTotalTokenUsed(UpdateTotalTokenUsed(total, model, p1, c1, encode), model, p2, c2, encode);
      Read(twice, model) == Add(Read(total, model), Add(NewTokens(model, p1, c1, encode), NewTokens(model, p2, c2, encode)))
  {
  }

  /** When every prompt carries both a text and an image, the image counter
      grows by exactly as much as the prompt counter: image tokens are the
      tokens of the image prompts' text. */
  lemma ImagePromptsCountTheirText(total: map<string, TokenUsage>, model: string, prompts: seq<Message>,
                                   completion: Message, encode: string -> seq<int>)
    requires forall i | 0 <= i < |prompts| :: HasText(prompts[i]) && HasImage(prompts[i])
    ensures var after := Read(UpdateTotalTokenUsed(total, model, prompts, completion, encode), model);
      after.image - Read(total, model).image == after.prompt - Read(total, model).prompt
  {
    assert Having(prompts, HasText) == prompts;
    assert Having(prompts, HasImage) == prompts;
  }
}
