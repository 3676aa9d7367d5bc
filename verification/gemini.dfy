/** The Gemini adapter (src/api/gemini.ts): transcript conversion to the
    Gemini request shape, the thinking configuration, and the separation of
    thought parts from answer parts in responses and stream chunks. The
    client and its network calls are not modelled; responses are inputs. */
module Gemini {
  import opened Wrappers
  import opened Strings
  import opened ChatTypes

  // Request: transcript conversion

  datatype Part = TextPart(text: string) | InlineData(mimeType: string, data: string)

  datatype GeminiContent = GeminiContent(role: string, parts: seq<Part>)

  /** `{ systemInstruction, contents }`; `None` is `undefined`. */
  datatype Converted = Converted(systemInstruction: Option<string>, contents: seq<GeminiContent>)

  /** The characters `.` does not match in a regular expression without the
      `s` flag (ECMAScript LineTerminator). */
  predicate IsLineTerminator(c: char) {
    c == '\n' || c == '\r' || c == '\U{2028}' || c == '\U{2029}'
  }

  predicate OneLine(s: string) {
    forall i | 0 <= i < |s| :: !IsLineTerminator(s[i])
  }

  const DataPrefix: string := "data:"
  const Base64Marker: string := ";base64,"

  /** `url` is `data:<mime>;base64,<data>` with both parts non-empty and on
      one line: a match of `/^data:(.+?);base64,(.+)$/` with these groups,
      laziness aside. */
  predicate IsDataUrl(url: string, mime: string, data: string) {
    url == DataPrefix + mime + Base64Marker + data && |mime| > 0 && |data| > 0 && OneLine(mime + data)
  }

  /** After the `data:` prefix, group 1 can end at `k`. */
  predicate SplitsAt(rest: string, k: nat) {
    1 <= k && k + |Base64Marker| < |rest| && rest[k..k + |Base64Marker|] == Base64Marker && OneLine(rest)
  }

  /** The lazy group: the first `k` from `from` on at which the match can
      close. */
  function FirstSplit(rest: string, from: nat): (r: Option<nat>)
    requires 1 <= from && OneLine(rest)
    ensures r.Some? ==> from <= r.value && SplitsAt(rest, r.value)
    ensures r.Some? ==> forall k | from <= k < r.value :: !SplitsAt(rest, k)
    ensures r.None? ==> forall k | from <= k :: !SplitsAt(rest, k)
    decreases |rest| - from
  {
    if from + |Base64Marker| >= |rest| then None
    else if rest[from..from + |Base64Marker|] == Base64Marker then Some(from)
    else FirstSplit(rest, from + 1)
  }

  datatype DataUrl = DataUrl(mimeType: string, data: string)

  lemma DataUrlSplits(url: string, mime: string, data: string)
    requires IsDataUrl(url, mime, data)
    ensures StartsWith(url, DataPrefix) && SplitsAt(url[|DataPrefix|..], |mime|)
    ensures url[|DataPrefix|..][..|mime|] == mime && url[|DataPrefix|..][|mime| + |Base64Marker|..] == data
  {
    var rest := url[|DataPrefix|..];
    assert rest == mime + Base64Marker + data;
    assert rest[|mime|..|mime| + |Base64Marker|] == Base64Marker;
    forall i | 0 <= i < |rest| ensures !IsLineTerminator(rest[i]) {
      if i < |mime| {
        assert rest[i] == (mime + data)[i];
      } else if i >= |mime| + |Base64Marker| {
        assert rest[i] == (mime + data)[i - |Base64Marker|];
      }
    }
  }

  /** Every split of a data URL starts with `data:`, lies on one line and
      closes group 1 at the media type's length. */
  lemma DataUrlShape(url: string)
    ensures forall mime, data | IsDataUrl(url, mime, data) ::
      && StartsWith(url, DataPrefix) && OneLine(url[|DataPrefix|..])
      && SplitsAt(url[|DataPrefix|..], |mime|)
  {
    forall mime, data | IsDataUrl(url, mime, data)
      ensures StartsWith(url, DataPrefix) && OneLine(url[|DataPrefix|..]) && SplitsAt(url[|DataPrefix|..], |mime|)
    {
      DataUrlSplits(url, mime, data);
    }
  }

  /** `url.match(/^data:(.+?);base64,(.+)$/)`: the groups of the match with
      the shortest media type, or `None` when there is no match. */
  function MatchDataUrl(url: string): (r: Option<DataUrl>)
    ensures r.Some? ==> IsDataUrl(url, r.value.mimeType, r.value.data)
    ensures r.Some? ==> forall mime, data | |mime| < |r.value.mimeType| :: !IsDataUrl(url, mime, data)
    ensures r.None? ==> forall mime, data :: !IsDataUrl(url, mime, data)
  {
    DataUrlShape(url);
    if !StartsWith(url, DataPrefix) then None
    else
      var rest := url[|DataPrefix|..];
      if !OneLine(rest) then None
      else
        var k := FirstSplit(rest, 1);
        if k.None? then None
        else
          SplitIsDataUrl(url, k.value);
          Some(DataUrl(rest[..k.value], rest[k.value + |Base64Marker|..]))
  }

  /** A split point of the part after `data:` gives the groups of a match. */
  lemma SplitIsDataUrl(url: string, k: nat)
    requires StartsWith(url, DataPrefix) && SplitsAt(url[|DataPrefix|..], k)
    ensures var rest := url[|DataPrefix|..];
      IsDataUrl(url, rest[..k], rest[k + |Base64Marker|..])
  {
    var rest := url[|DataPrefix|..];
    var mime, data := rest[..k], rest[k + |Base64Marker|..];
    assert rest == mime + rest[k..k + |Base64Marker|] + data;
    assert url == DataPrefix + rest;
    assert OneLine(mime) by {
      forall i | 0 <= i < |mime| ensures !IsLineTerminator(mime[i]) {
        assert mime[i] == rest[i];
      }
    }
    assert OneLine(data) by {
      forall i | 0 <= i < |data| ensures !IsLineTerminator(data[i]) {
        assert data[i] == rest[i + k + |Base64Marker|];
      }
    }
    OneLineConcat(mime, data);
  }

  lemma OneLineConcat(a: string, b: string)
    requires OneLine(a) && OneLine(b)
    ensures OneLine(a + b)
  {
    forall i | 0 <= i < |a + b| ensures !IsLineTerminator((a + b)[i]) {
      if i >= |a| {
        assert (a + b)[i] == b[i - |a|];
      }
    }
  }

  /** The parts one content item contributes: text as text, a data URL as
      inline data (nothing when it does not match), any other URL as a
      text placeholder, and reasoning as nothing. */
  function ItemParts(c: ContentItem): (r: seq<Part>)
    ensures |r| <= 1
    ensures c.Text? ==> r == [TextPart(c.text)]
    ensures c.Reasoning? ==> r == []
    ensures c.Image? && !StartsWith(c.url, DataPrefix) ==> r == [TextPart("[Image: " + c.url + "]")]
    ensures c.Image? && StartsWith(c.url, DataPrefix) ==>
      (r == [] <==> forall mime, data :: !IsDataUrl(c.url, mime, data))
    ensures forall i | 0 <= i < |r| :: r[i].InlineData? ==> c.Image? && IsDataUrl(c.url, r[i].mimeType, r[i].data)
  {
    match c
    case Text(t) => [TextPart(t)]
    case Image(url, _, _) =>
      if StartsWith(url, DataPrefix) then
        match MatchDataUrl(url)
        case Some(m) => [InlineData(m.mimeType, m.data)]
        case None => []
      else [TextPart("[Image: " + url + "]")]
    case Reasoning(_, _, _, _) => []
  }

  /** The parts of a message, in item order. */
  function MessageParts(content: seq<ContentItem>): (r: seq<Part>)
    ensures |r| <= |content|
  {
    if |content| == 0 then [] else MessageParts(content[..|content| - 1]) + ItemParts(content[|content| - 1])
  }

  /** Parts are produced item by item: the parts of a concatenation are the
      concatenation of the parts. */
  lemma {:induction false} MessagePartsConcat(a: seq<ContentItem>, b: seq<ContentItem>)
    ensures MessageParts(a + b) == MessageParts(a) + MessageParts(b)
    decreases |b|
  {
    if |b| > 0 {
      var b' := b[..|b| - 1];
      assert (a + b)[..|a + b| - 1] == a + b';
      MessagePartsConcat(a, b');
    } else {
      assert a + b == a;
    }
  }

  /** A transcript of text items becomes one text part per item. */
  lemma {:induction false} TextOnlyParts(content: seq<ContentItem>)
    requires forall i | 0 <= i < |content| :: content[i].Text?
    ensures |MessageParts(content)| == |content|
    ensures forall i | 0 <= i < |content| :: MessageParts(content)[i] == TextPart(content[i].text)
    decreases |content|
  {
    if |content| > 0 {
      TextOnlyParts(content[..|content| - 1]);
    }
  }

  /** The texts of a message's text items, in order
      (`content.filter(isTextContent).map(c => c.text)`). */
  function TextsOf(content: seq<ContentItem>): (r: seq<string>)
    ensures |r| <= |content|
  {
    if |content| == 0 then []
    else TextsOf(content[..|content| - 1]) + (if content[|content| - 1].Text? then [content[|content| - 1].text] else [])
  }

  /** The Gemini role of a non-system message. */
  function GeminiRole(r: Role): string {
    if r == Assistant then "model" else "user"
  }

  /** `systemInstruction ? systemInstruction + '\n' + text : text`. */
  function AddSystem(si: Option<string>, text: string): Option<string> {
    if si.Some? && si.value != "" then Some(si.value + "\n" + text) else Some(text)
  }

  /** One iteration of the conversion loop. */
  function ConvertStep(acc: Converted, m: Message): (r: Converted)
    ensures m.role == System ==> r.contents == acc.contents
    ensures m.role != System ==> r.systemInstruction == acc.systemInstruction
    ensures m.role != System && |MessageParts(m.content)| > 0 ==>
      r.contents == acc.contents + [GeminiContent(GeminiRole(m.role), MessageParts(m.content))]
    ensures m.role != System && |MessageParts(m.content)| == 0 ==> r.contents == acc.contents
  {
    if m.role == System then
      Converted(AddSystem(acc.systemInstruction, Join(TextsOf(m.content), "\n")), acc.contents)
    else
      var parts := MessageParts(m.content);
      if |parts| > 0 then Converted(acc.systemInstruction, acc.contents + [GeminiContent(GeminiRole(m.role), parts)])
      else acc
  }

  /** `convertMessages`. */
  function ConvertMessages(msgs: seq<Message>): (r: Converted)
    ensures forall i | 0 <= i < |r.contents| :: |r.contents[i].parts| > 0
    ensures forall i | 0 <= i < |r.contents| :: r.contents[i].role == "model" || r.contents[i].role == "user"
    ensures |r.contents| <= |msgs|
  {
    if |msgs| == 0 then Converted(None, [])
    else ConvertStep(ConvertMessages(msgs[..|msgs| - 1]), msgs[|msgs| - 1])
  }

  /** The contents of a single message: none for a system message or one
      without parts, else one entry with the mapped role. */
  function MessageContents(m: Message): seq<GeminiContent> {
    if m.role == System || |MessageParts(m.content)| == 0 then []
    else [GeminiContent(GeminiRole(m.role), MessageParts(m.content))]
  }

  lemma ContentsStep(msgs: seq<Message>)
    requires |msgs| > 0
    ensures ConvertMessages(msgs).contents == ConvertMessages(msgs[..|msgs| - 1]).contents + MessageContents(msgs[|msgs| - 1])
  {
  }

  /** The contents of a transcript are those of its messages, in order;
      system messages contribute nothing. */
  lemma {:induction false} ContentsConcat(a: seq<Message>, b: seq<Message>)
    ensures ConvertMessages(a + b).contents == ConvertMessages(a).contents + ConvertMessages(b).contents
    decreases |b|
  {
    if |b| > 0 {
      var ab, b', last := a + b, b[..|b| - 1], b[|b| - 1];
      assert ab[..|ab| - 1] == a + b' && ab[|ab| - 1] == last;
      ContentsStep(ab);
      ContentsStep(b);
      ContentsConcat(a, b');
      var x, y, z := ConvertMessages(a).contents, ConvertMessages(b').contents, MessageContents(last);
      assert (x + y) + z == x + (y + z);
    } else {
      assert a + b == a;
    }
  }

  lemma SingleMessageContents(m: Message)
    ensures ConvertMessages([m]).contents == MessageContents(m)
  {
    assert [m][..0] == [];
  }

  /** The texts of the system messages, in order. */
  function SystemTexts(msgs: seq<Message>): seq<string> {
    if |msgs| == 0 then []
    else
      var m := msgs[|msgs| - 1];
      SystemTexts(msgs[..|msgs| - 1]) + (if m.role == System then [Join(TextsOf(m.content), "\n")] else [])
  }

  /** Leading empty texts are skipped: an empty instruction is falsy, so
      the next one replaces it instead of being appended to it. */
  function DropLeadingEmpty(ts: seq<string>): (r: seq<string>)
    ensures |r| > 0 ==> r[0] != ""
    ensures |r| <= |ts| && r == ts[|ts| - |r|..]
  {
    if |ts| > 0 && ts[0] == "" then DropLeadingEmpty(ts[1..]) else ts
  }

  lemma {:induction false} DropLeadingEmptySnoc(ts: seq<string>, t: string)
    ensures DropLeadingEmpty(ts + [t]) ==
      if |DropLeadingEmpty(ts)| > 0 then DropLeadingEmpty(ts) + [t] else if t == "" then [] else [t]
    decreases |ts|
  {
    if |ts| > 0 {
      assert (ts + [t])[1..] == ts[1..] + [t];
      if ts[0] == "" {
        DropLeadingEmptySnoc(ts[1..], t);
      }
    } else {
      assert ts + [t] == [t];
    }
  }

  /** A join starts with its first element. */
  lemma {:induction false} JoinStartsWithFirst(parts: seq<string>, sep: string)
    requires |parts| > 0
    ensures |Join(parts, sep)| >= |parts[0]| && Join(parts, sep)[..|parts[0]|] == parts[0]
    decreases |parts|
  {
    if |parts| > 1 {
      JoinStartsWithFirst(parts[..|parts| - 1], sep);
    }
  }

  /** One more system text extends the joined instruction. */
  lemma AddSystemJoin(ts: seq<string>, t: string)
    ensures AddSystem(if |ts| == 0 then None else Some(Join(DropLeadingEmpty(ts), "\n")), t) == Some(Join(DropLeadingEmpty(ts + [t]), "\n"))
  {
    DropLeadingEmptySnoc(ts, t);
    var d := DropLeadingEmpty(ts);
    if |d| > 0 {
      JoinStartsWithFirst(d, "\n");
      var j := Join(d, "\n");
      assert j != "" by {
        assert |j| >= |d[0]| > 0;
      }
      JoinSnoc(d, t, "\n");
    } else {
      assert Join(d, "\n") == "";
    }
  }

  lemma JoinSnoc(d: seq<string>, t: string, sep: string)
    requires |d| > 0
    ensures Join(d + [t], sep) == Join(d, sep) + sep + t
  {
    assert (d + [t])[..|d + [t]| - 1] == d;
  }

  /** The system instruction is the system messages' texts joined with
      newlines, leading empty ones dropped, and absent when there is no
      system message. */
  lemma {:induction false} SystemInstructionJoins(msgs: seq<Message>)
    ensures var ts := SystemTexts(msgs);
      ConvertMessages(msgs).systemInstruction == if |ts| == 0 then None else Some(Join(DropLeadingEmpty(ts), "\n"))
    decreases |msgs|
  {
    if |msgs| > 0 {
      var prev := msgs[..|msgs| - 1];
      var m := msgs[|msgs| - 1];
      SystemInstructionJoins(prev);
      if m.role == System {
        var t := Join(TextsOf(m.content), "\n");
        assert SystemTexts(msgs) == SystemTexts(prev) + [t];
        AddSystemJoin(SystemTexts(prev), t);
      } else {
        assert SystemTexts(msgs) == SystemTexts(prev) + [];
        assert SystemTexts(prev) + [] == SystemTexts(prev);
      }
    }
  }

  // Request: thinking configuration

  datatype ThinkingConfig =
    | BudgetConfig(includeThoughts: bool, thinkingBudget: int)
    | LevelConfig(includeThoughts: bool, thinkingLevel: ThinkingLevel)

  /** The token budget of a level for Gemini 2.x; -1 asks for a dynamic
      budget. */
  function Budget(level: ThinkingLevel): int {
    match level
    case Minimal => 0
    case Low => 1024
    case Medium => 8192
    case High => -1
  }

  /** Models that take a thinking budget instead of a level. */
  predicate UsesBudget(model: string) {
    Contains(model, "gemini-2.5") || Contains(model, "gemini-2.0")
  }

  /** `mapThinkingConfig`: a missing level means `high`. */
  function MapThinkingConfig(level: Option<ThinkingLevel>, model: string): (r: ThinkingConfig)
    ensures r.includeThoughts
    ensures r.BudgetConfig? <==> UsesBudget(model)
  {
    var effective := level.GetOr(High);
    if UsesBudget(model) then BudgetConfig(true, Budget(effective))
    else LevelConfig(true, effective)
  }

  /** The configuration the levels map to: fixed budgets growing with the
      level below `high`, the dynamic budget for `high`, and the level itself
      for later models; a missing level behaves as `high`. */
  lemma ThinkingConfigLevels(model: string)
    ensures UsesBudget(model) ==>
      && MapThinkingConfig(Some(Minimal), model).thinkingBudget == 0
      && MapThinkingConfig(Some(Low), model).thinkingBudget == 1024
      && MapThinkingConfig(Some(Medium), model).thinkingBudget == 8192
      && MapThinkingConfig(Some(High), model).thinkingBudget == -1
    ensures !UsesBudget(model) ==> forall l :: MapThinkingConfig(Some(l), model).thinkingLevel == l
    ensures MapThinkingConfig(None, model) == MapThinkingConfig(Some(High), model)
  {
  }

  // Response: thought parts and answer parts

  /** A response part; `text` may be absent, and `thought` is the part's
      thought flag read for truthiness. */
  datatype ResponsePart = ResponsePart(text: Option<string>, thought: bool)

  datatype Separated = Separated(content: string, reasoning: string)

  /** The loop over parts: a part without text (absent or empty) is
      skipped; thought parts go to reasoning, the rest to content. */
  function SeparateParts(parts: seq<ResponsePart>): (r: Separated)
  {
    if |parts| == 0 then Separated("", "")
    else
      var prev := SeparateParts(parts[..|parts| - 1]);
      var p := parts[|parts| - 1];
      if p.text.None? || p.text.value == "" then prev
      else if p.thought then Separated(prev.content, prev.reasoning + p.text.value)
      else Separated(prev.content + p.text.value, prev.reasoning)
  }

  /** The texts of the parts with the given thought flag, in order. */
  function TextsWith(parts: seq<ResponsePart>, thought: bool): seq<string> {
    if |parts| == 0 then []
    else
      var p := parts[|parts| - 1];
      TextsWith(parts[..|parts| - 1], thought) + (if p.text.Some? && p.thought == thought then [p.text.value] else [])
  }

  function Concat(ss: seq<string>): string {
    if |ss| == 0 then "" else Concat(ss[..|ss| - 1]) + ss[|ss| - 1]
  }

  lemma ConcatSnoc(ss: seq<string>, x: string)
    ensures Concat(ss + [x]) == Concat(ss) + x
  {
    assert (ss + [x])[..|ss|] == ss;
  }

  /** Content is the concatenation of the answer parts' texts and reasoning
      that of the thought parts' texts. */
  lemma {:induction false} SeparatePartsTexts(parts: seq<ResponsePart>)
    ensures SeparateParts(parts) == Separated(Concat(TextsWith(parts, false)), Concat(TextsWith(parts, true)))
    decreases |parts|
  {
    if |parts| > 0 {
      SeparatePartsTexts(parts[..|parts| - 1]);
      var p := parts[|parts| - 1];
      var a, b := TextsWith(parts[..|parts| - 1], false), TextsWith(parts[..|parts| - 1], true);
      assert a + [] == a && b + [] == b;
      if p.text.Some? {
        var v := p.text.value;
        if p.thought {
          ConcatSnoc(b, v);
          assert Concat(b) + "" == Concat(b);
        } else {
          ConcatSnoc(a, v);
          assert Concat(a) + "" == Concat(a);
        }
      }
    }
  }

  /** Separating a list of parts is separating its pieces and joining the
      results. */
  lemma {:induction false} SeparateConcat(a: seq<ResponsePart>, b: seq<ResponsePart>)
    ensures SeparateParts(a + b) ==
      Separated(SeparateParts(a).content + SeparateParts(b).content, SeparateParts(a).reasoning + SeparateParts(b).reasoning)
    decreases |b|
  {
    if |b| > 0 {
      var b' := b[..|b| - 1];
      assert (a + b)[..|a + b| - 1] == a + b';
      SeparateConcat(a, b');
    } else {
      assert a + b == a;
    }
  }

  /** The message of a non-streamed reply: `parts` is absent when the
      response has no candidate content. */
  datatype CompletionMessage = CompletionMessage(content: string, reasoningContent: Option<string>)

  function NonStreamMessage(parts: Option<seq<ResponsePart>>, responseText: Option<string>): (r: CompletionMessage)
    ensures parts.Some? ==> r.content == SeparateParts(parts.value).content
    ensures parts.None? ==> r.content == responseText.GetOr("") && r.reasoningContent.None?
    ensures r.reasoningContent.Some? ==> r.reasoningContent.value != ""
    ensures parts.Some? && SeparateParts(parts.value).reasoning != "" ==> r.reasoningContent == Some(SeparateParts(parts.value).reasoning)
  {
    var sep := if parts.Some? then SeparateParts(parts.value) else Separated(responseText.GetOr(""), "");
    CompletionMessage(sep.content, if sep.reasoning == "" then None else Some(sep.reasoning))
  }

  // Stream chunks

  datatype StreamChunk = StreamChunk(parts: Option<seq<ResponsePart>>, text: Option<string>)

  /** A delta in the chat-completions shape; `None` is `null`. */
  datatype Delta = Delta(content: Option<string>, reasoningContent: Option<string>)

  /** `""` becomes `null`. */
  function NonEmpty(s: string): (r: Option<string>)
    ensures r.None? <==> s == ""
    ensures r.Some? ==> r.value == s
  {
    if s == "" then None else Some(s)
  }

  /** The delta one stream chunk yields, if any. */
  function ChunkDelta(chunk: StreamChunk): (r: Option<Delta>)
    ensures r.Some? ==> r.value.content.Some? || r.value.reasoningContent.Some?
    ensures r.Some? ==> r.value.content != Some("") && r.value.reasoningContent != Some("")
    ensures chunk.parts.None? ==> r.None? || r.value.reasoningContent.None?
    ensures chunk.parts.Some? ==>
      var sep := SeparateParts(chunk.parts.value);
      (r.None? <==> sep.content == "" && sep.reasoning == "")
      && (r.Some? ==> r.value == Delta(NonEmpty(sep.content), NonEmpty(sep.reasoning)))
    ensures chunk.parts.None? ==> (r.None? <==> chunk.text.GetOr("") == "")
  {
    match chunk.parts
    case Some(parts) =>
      var sep := SeparateParts(parts);
      if sep.content != "" || sep.reasoning != "" then Some(Delta(NonEmpty(sep.content), NonEmpty(sep.reasoning)))
      else None
    case None =>
      var text := chunk.text.GetOr("");
      if text != "" then Some(Delta(Some(text), None)) else None
  }

  /** `toOpenAIChunks`: the deltas yielded for a sequence of stream chunks. */
  function ToOpenAIChunks(chunks: seq<StreamChunk>): (r: seq<Delta>)
    ensures |r| <= |chunks|
  {
    if |chunks| == 0 then []
    else
      var prev := ToOpenAIChunks(chunks[..|chunks| - 1]);
      match ChunkDelta(chunks[|chunks| - 1])
      case Some(d) => prev + [d]
      case None => prev
  }

  /** The text a sequence of deltas adds to the answer and to the
      reasoning, `null` counting as nothing. */
  function DeltaText(deltas: seq<Delta>, reasoning: bool): string {
    if |deltas| == 0 then ""
    else
      var d := deltas[|deltas| - 1];
      DeltaText(deltas[..|deltas| - 1], reasoning) + (if reasoning then d.reasoningContent else d.content).GetOr("")
  }

  /** All parts of a stream, in order. */
  function AllParts(chunks: seq<StreamChunk>): seq<ResponsePart> {
    if |chunks| == 0 then []
    else AllParts(chunks[..|chunks| - 1]) + chunks[|chunks| - 1].parts.GetOr([])
  }

  /** When every chunk carries parts, the streamed deltas add up to what the
      non-streamed reply separates from the same parts. */
  lemma {:induction false} StreamMatchesNonStream(chunks: seq<StreamChunk>)
    requires forall i | 0 <= i < |chunks| :: chunks[i].parts.Some?
    ensures DeltaText(ToOpenAIChunks(chunks), false) == SeparateParts(AllParts(chunks)).content
    ensures DeltaText(ToOpenAIChunks(chunks), true) == SeparateParts(AllParts(chunks)).reasoning
    decreases |chunks|
  {
    if |chunks| > 0 {
      var prev := chunks[..|chunks| - 1];
      var last := chunks[|chunks| - 1];
      StreamMatchesNonStream(prev);
      SeparateConcat(AllParts(prev), last.parts.value);
      var ds := ToOpenAIChunks(prev);
      match ChunkDelta(last)
      case Some(d) =>
        assert (ds + [d])[..|ds|] == ds;
      case None =>
    }
  }
}
