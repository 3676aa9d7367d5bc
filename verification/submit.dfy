/** The generation flow of the submit hook (src/hooks/useSubmit.ts) on the
    content of the assistant message being generated: the per-read fold over
    decoded events, the stream loop, the end-of-stream flush and timer
    finalisation, and the non-streaming path.

    Time is an explicit timestamp per read; the network, the stream reader
    and the event-source decoder are outside the model, whose inputs are the
    already-decoded events. */
module Submit {
  import opened Wrappers
  import opened ChatTypes
  import opened ThinkParser
  import opened ReasoningBlocks
  import ContentView

  /** One decoded event: the first choice's delta (an absent or null field is
      ""), or an event without a delta, such as usage statistics. */
  datatype Event = Delta(content: string, reasoningContent: string) | NoDelta

  /** The accumulator of the per-read `reduce`, together with the parser
      state and the reasoning start time it updates on the way. */
  datatype FoldState = FoldState(out: ResultStrings, think: ParserState, start: Option<int>)

  /** The reduce callback for one event. Native reasoning is taken as it is;
      answer text goes through the think-tag parser, whose reasoning joins the
      reasoning and whose answer marks the batch as having content. The first
      reasoning text starts the timer. */
  function FoldEvent(acc: FoldState, e: Event, now: int): (r: FoldState)
    ensures acc.out.content <= r.out.content && acc.out.reasoning <= r.out.reasoning
    ensures acc.out.hasContent ==> r.out.hasContent
    ensures acc.start.Some? ==> r.start == acc.start
    ensures acc.start.None? ==> r.start == (if |r.out.reasoning| > |acc.out.reasoning| then Some(now) else None)
  {
    match e
    case NoDelta => acc
    case Delta(content, native) =>
      var out1 := if native != "" then acc.out.(reasoning := acc.out.reasoning + native) else acc.out;
      var start1 := if native != "" && acc.start.None? then Some(now) else acc.start;
      if content == "" then FoldState(out1, acc.think, start1)
      else
        var parsed := ProcessThinkChunk(content, acc.think).emit;
        var out2 := if parsed.reasoning != "" then out1.(reasoning := out1.reasoning + parsed.reasoning) else out1;
        var start2 := if parsed.reasoning != "" && start1.None? then Some(now) else start1;
        var out3 := if parsed.content != "" then out2.(content := out2.content + parsed.content, hasContent := true) else out2;
        FoldState(out3, ProcessThinkChunk(content, acc.think).next, start2)
  }

  /** `result.reduce(callback, acc)` over the events of one read. */
  function FoldEvents(events: seq<Event>, acc: FoldState, now: int): (r: FoldState)
    ensures acc.out.content <= r.out.content && acc.out.reasoning <= r.out.reasoning
    ensures acc.out.hasContent ==> r.out.hasContent
    ensures acc.start.Some? ==> r.start == acc.start
    ensures acc.start.None? ==> r.start == (if |r.out.reasoning| > |acc.out.reasoning| then Some(now) else None)
    decreases |events|
  {
    if |events| == 0 then acc
    else FoldEvents(events[1..], FoldEvent(acc, events[0], now), now)
  }

  /** The answer texts an event list hands to the parser, in order. */
  function DeltaContents(events: seq<Event>): seq<string>
    decreases |events|
  {
    if |events| == 0 then []
    else if events[0].Delta? && events[0].content != "" then [events[0].content] + DeltaContents(events[1..])
    else DeltaContents(events[1..])
  }

  /** No event carries a native reasoning field. */
  predicate NoNativeReasoning(events: seq<Event>) {
    forall i | 0 <= i < |events| :: events[i].Delta? ==> events[i].reasoningContent == ""
  }

  /** Feeding one chunk and then a list is feeding the longer list. */
  lemma FeedCons(c: string, rest: seq<string>, st: ParserState)
    ensures Feed([c] + rest, st).emit == ProcessThinkChunk(c, st).emit.Then(Feed(rest, ProcessThinkChunk(c, st).next).emit)
    ensures Feed([c] + rest, st).next == Feed(rest, ProcessThinkChunk(c, st).next).next
  {
    assert ([c] + rest)[0] == c && ([c] + rest)[1..] == rest;
  }

  /** The fold of one event agrees with feeding that event's answer text to
      the parser. */
  lemma FoldEventFeeds(acc: FoldState, e: Event, now: int, rest: seq<string>)
    ensures var f := FoldEvent(acc, e, now);
      var chunks := if e.Delta? && e.content != "" then [e.content] else [];
      && Feed(chunks + rest, acc.think).emit == Feed(chunks, acc.think).emit.Then(Feed(rest, f.think).emit)
      && Feed(chunks + rest, acc.think).next == Feed(rest, f.think).next
      && f.out.content == acc.out.content + Feed(chunks, acc.think).emit.content
      && f.out.hasContent == (acc.out.hasContent || Feed(chunks, acc.think).emit.content != "")
      && (e.Delta? && e.reasoningContent == "" ==> f.out.reasoning == acc.out.reasoning + Feed(chunks, acc.think).emit.reasoning)
      && (e.NoDelta? ==> f.out.reasoning == acc.out.reasoning)
  {
    var f := FoldEvent(acc, e, now);
    if e.Delta? && e.content != "" {
      var p := ProcessThinkChunk(e.content, acc.think);
      FeedCons(e.content, rest, acc.think);
      FeedCons(e.content, [], acc.think);
      assert [e.content] + [] == [e.content];
      EmptyThen(p.emit);
    } else {
      assert [] + rest == rest;
      EmptyThen(Feed(rest, f.think).emit);
      assert acc.out.content + "" == acc.out.content;
      assert acc.out.reasoning + "" == acc.out.reasoning;
    }
  }

  /** A read's fold feeds exactly its non-empty answer texts, in order, to the
      parser: its answer text is what the parser emits for them, and without
      native reasoning so is its reasoning text. */
  lemma {:induction false} FoldFeedsParser(events: seq<Event>, acc: FoldState, now: int)
    ensures var f := FoldEvents(events, acc, now);
      var fed := Feed(DeltaContents(events), acc.think);
      && f.think == fed.next
      && f.out.content == acc.out.content + fed.emit.content
      && f.out.hasContent == (acc.out.hasContent || fed.emit.content != "")
      && (NoNativeReasoning(events) ==> f.out.reasoning == acc.out.reasoning + fed.emit.reasoning)
    decreases |events|
  {
    if |events| == 0 {
      assert acc.out.content + "" == acc.out.content;
      assert acc.out.reasoning + "" == acc.out.reasoning;
    } else {
      var e := events[0];
      var next := FoldEvent(acc, e, now);
      var chunks := if e.Delta? && e.content != "" then [e.content] else [];
      var rest := DeltaContents(events[1..]);
      assert DeltaContents(events) == chunks + rest;
      FoldEventFeeds(acc, e, now, rest);
      FoldFeedsParser(events[1..], next, now);
      var a, b := Feed(chunks, acc.think).emit, Feed(rest, next.think).emit;
      StringAssoc(acc.out.content, a.content, b.content);
      StringAssoc(acc.out.reasoning, a.reasoning, b.reasoning);
      if NoNativeReasoning(events) {
        assert NoNativeReasoning(events[1..]) by {
          forall i | 0 <= i < |events[1..]| ensures events[1..][i].Delta? ==> events[1..][i].reasoningContent == "" {
            assert events[1..][i] == events[i + 1];
          }
        }
      }
    }
  }

  /** One outcome of `reader.read()`: a batch of decoded events read at time
      `now`, the end of the stream (`done` or `[DONE]`), or the global
      `generating` flag found cleared when the loop condition is checked. */
  datatype Read = Batch(events: seq<Event>, now: int) | Done | Stop

  /** What the stream loop carries from one read to the next. */
  datatype StreamState = StreamState(content: seq<ContentItem>, think: ParserState, timer: Timer)

  const NoResult: ResultStrings := ResultStrings("", "", false)

  /** One pass of the stream loop: fold the read's events, then apply the
      result to the latest message. */
  function StepBatch(s: StreamState, events: seq<Event>, now: int): (r: Result<StreamState>)
    ensures r.Success? ==> (r.value.timer.start.Some? <==> s.timer.start.Some? || FoldEvents(events, FoldState(NoResult, s.think, s.timer.start), now).out.reasoning != "")
    ensures r.Success? && s.timer.completed ==> r.value.timer.completed
  {
    var f := FoldEvents(events, FoldState(NoResult, s.think, s.timer.start), now);
    var applied :- ApplyStreamResult(s.content, f.out, Timer(f.start, s.timer.completed), now);
    Success(StreamState(applied.content, f.think, applied.timer))
  }

  /** The `while (reading && generating)` loop over a list of reads; it ends
      at the first `Done` or `Stop`, or when the incoming run out. An update that
      throws ends the generation with an error. */
  function RunStream(incoming: seq<Read>, s: StreamState): Result<StreamState>
    decreases |incoming|
  {
    if |incoming| == 0 || !incoming[0].Batch? then Success(s)
    else
      var next :- StepBatch(s, incoming[0].events, incoming[0].now);
      RunStream(incoming[1..], next)
  }

  /** The answer texts of the reads the loop consumes, in order. */
  function StreamChunks(incoming: seq<Read>): seq<string>
    decreases |incoming|
  {
    if |incoming| == 0 || !incoming[0].Batch? then []
    else DeltaContents(incoming[0].events) + StreamChunks(incoming[1..])
  }

  /** No consumed read carries native reasoning. */
  predicate StreamWithoutNativeReasoning(incoming: seq<Read>)
    decreases |incoming|
  {
    |incoming| == 0 || !incoming[0].Batch? || (NoNativeReasoning(incoming[0].events) && StreamWithoutNativeReasoning(incoming[1..]))
  }

  /** After the loop: flush the parser's carry through one more update, then
      close a timer that is still running. */
  function FinishStream(s: StreamState, now: int): Result<seq<ContentItem>> {
    var after :- FlushCarry(s, now);
    Success(CloseTimer(after, now))
  }

  /** The update that releases the parser's carry, skipped when the carry
      is empty. */
  function FlushCarry(s: StreamState, now: int): Result<Applied> {
    var flushed := FlushThinkState(s.think).emit;
    if flushed.reasoning != "" || flushed.content != "" then
      var start := if flushed.reasoning != "" && s.timer.start.None? then Some(now) else s.timer.start;
      ApplyStreamResult(s.content, ResultStrings(flushed.content, flushed.reasoning, flushed.content != ""), Timer(start, s.timer.completed), now)
    else Success(Applied(s.content, s.timer))
  }

  /** A timer still running completes the reasoning item. */
  function CloseTimer(after: Applied, now: int): seq<ContentItem> {
    if after.timer.start.Some? && !after.timer.completed then
      CompleteReasoning(after.content, DurationSeconds(after.timer.start.value, now))
    else after.content
  }

  /** A streamed generation into a message's content: the loop from a fresh
      parser and timer, then the finish at time `endNow`. */
  function StreamGeneration(c: seq<ContentItem>, incoming: seq<Read>, endNow: int): Result<seq<ContentItem>> {
    var s :- RunStream(incoming, StreamState(c, Initial, Timer(None, false)));
    FinishStream(s, endNow)
  }

  lemma StepKeepsShape(s: StreamState, events: seq<Event>, now: int)
    requires WellFormed(s.content)
    ensures var r := StepBatch(s, events, now);
      var f := FoldEvents(events, FoldState(NoResult, s.think, s.timer.start), now);
      var fed := Feed(DeltaContents(events), s.think);
      && r.Success? && WellFormed(r.value.content)
      && r.value.think == fed.next
      && AnswerText(r.value.content) == AnswerText(s.content) + fed.emit.content
      && ReasoningText(r.value.content) == ReasoningText(s.content) + f.out.reasoning
      && (NoNativeReasoning(events) ==> f.out.reasoning == fed.emit.reasoning)
  {
    var acc := FoldState(NoResult, s.think, s.timer.start);
    var f := FoldEvents(events, acc, now);
    FoldFeedsParser(events, acc, now);
    var t := Timer(f.start, s.timer.completed);
    ApplyWellFormed(s.content, f.out, t, now);
    var fed := Feed(DeltaContents(events), s.think);
    assert f.out.content == fed.emit.content by {
      assert NoResult.content + fed.emit.content == fed.emit.content;
    }
    assert NoNativeReasoning(events) ==> f.out.reasoning == fed.emit.reasoning by {
      assert NoResult.reasoning + fed.emit.reasoning == fed.emit.reasoning;
    }
  }

  /** A pass of the loop keeps the timer in agreement with the reasoning
      item. */
  lemma StepKeepsAgreement(s: StreamState, events: seq<Event>, now: int)
    requires Agrees(s.content, s.timer)
    ensures StepBatch(s, events, now).Success?
    ensures Agrees(StepBatch(s, events, now).value.content, StepBatch(s, events, now).value.timer)
  {
    var acc := FoldState(NoResult, s.think, s.timer.start);
    var f := FoldEvents(events, acc, now);
    ApplyKeepsAgreement(s.content, f.out, Timer(f.start, s.timer.completed), now);
  }

  /** The loop keeps the message's shape; its answer text grows by what the
      parser emits for the consumed answer texts, and without native reasoning
      so does its reasoning text. */
  lemma {:induction false} RunKeepsShape(incoming: seq<Read>, s: StreamState)
    requires WellFormed(s.content)
    ensures var r := RunStream(incoming, s);
      var fed := Feed(StreamChunks(incoming), s.think);
      && r.Success? && WellFormed(r.value.content)
      && r.value.think == fed.next
      && AnswerText(r.value.content) == AnswerText(s.content) + fed.emit.content
      && (StreamWithoutNativeReasoning(incoming) ==> ReasoningText(r.value.content) == ReasoningText(s.content) + fed.emit.reasoning)
    decreases |incoming|
  {
    if |incoming| == 0 || !incoming[0].Batch? {
      assert StreamChunks(incoming) == [];
      assert AnswerText(s.content) + "" == AnswerText(s.content);
      assert ReasoningText(s.content) + "" == ReasoningText(s.content);
    } else {
      var events, now := incoming[0].events, incoming[0].now;
      StepKeepsShape(s, events, now);
      var next := StepBatch(s, events, now).value;
      assert RunStream(incoming, s) == RunStream(incoming[1..], next);
      RunKeepsShape(incoming[1..], next);
      var a, b := DeltaContents(events), StreamChunks(incoming[1..]);
      assert StreamChunks(incoming) == a + b;
      FeedAppend(a, b, s.think);
      var ea, eb := Feed(a, s.think).emit, Feed(b, next.think).emit;
      StringAssoc(AnswerText(s.content), ea.content, eb.content);
      StringAssoc(ReasoningText(s.content), ea.reasoning, eb.reasoning);
    }
  }

  /** The loop keeps the timer in agreement with the reasoning item. */
  lemma {:induction false} RunKeepsAgreement(incoming: seq<Read>, s: StreamState)
    requires Agrees(s.content, s.timer)
    ensures RunStream(incoming, s).Success?
    ensures Agrees(RunStream(incoming, s).value.content, RunStream(incoming, s).value.timer)
    decreases |incoming|
  {
    if |incoming| > 0 && incoming[0].Batch? {
      StepKeepsAgreement(s, incoming[0].events, incoming[0].now);
      RunKeepsAgreement(incoming[1..], StepBatch(s, incoming[0].events, incoming[0].now).value);
    }
  }

  /** Feeding two lists one after the other is feeding their concatenation. */
  lemma {:induction false} FeedAppend(a: seq<string>, b: seq<string>, st: ParserState)
    ensures Feed(a + b, st).emit == Feed(a, st).emit.Then(Feed(b, Feed(a, st).next).emit)
    ensures Feed(a + b, st).next == Feed(b, Feed(a, st).next).next
    decreases |a|
  {
    if |a| == 0 {
      assert a + b == b;
      EmptyThen(Feed(b, st).emit);
    } else {
      var first := ProcessThinkChunk(a[0], st);
      assert (a + b)[0] == a[0] && (a + b)[1..] == a[1..] + b;
      FeedAppend(a[1..], b, first.next);
      ThenAssoc(first.emit, Feed(a[1..], first.next).emit, Feed(b, Feed(a, st).next).emit);
    }
  }

  /** The finish keeps the shape, appends the flushed carry, and leaves any
      reasoning item finished. */
  lemma FinishKeepsShape(s: StreamState, now: int)
    requires Agrees(s.content, s.timer)
    ensures var r := FinishStream(s, now);
      var flushed := FlushThinkState(s.think).emit;
      && r.Success? && WellFormed(r.value) && Finished(r.value)
      && AnswerText(r.value) == AnswerText(s.content) + flushed.content
      && ReasoningText(r.value) == ReasoningText(s.content) + flushed.reasoning
  {
    FlushKeepsShape(s, now);
    var after := FlushCarry(s, now).value;
    FinishTimer(after.content, after.timer, now);
  }

  /** Releasing the carry keeps the timer in agreement and appends the
      carry to the channel of the parser's mode. */
  lemma FlushKeepsShape(s: StreamState, now: int)
    requires Agrees(s.content, s.timer)
    ensures var r := FlushCarry(s, now);
      var flushed := FlushThinkState(s.think).emit;
      && r.Success? && Agrees(r.value.content, r.value.timer)
      && AnswerText(r.value.content) == AnswerText(s.content) + flushed.content
      && ReasoningText(r.value.content) == ReasoningText(s.content) + flushed.reasoning
  {
    var flushed := FlushThinkState(s.think).emit;
    if flushed.reasoning != "" || flushed.content != "" {
      var start := if flushed.reasoning != "" && s.timer.start.None? then Some(now) else s.timer.start;
      var rs := ResultStrings(flushed.content, flushed.reasoning, flushed.content != "");
      var t := Timer(start, s.timer.completed);
      ApplyWellFormed(s.content, rs, t, now);
      ApplyKeepsAgreement(s.content, rs, t, now);
    } else {
      assert AnswerText(s.content) + flushed.content == AnswerText(s.content);
      assert ReasoningText(s.content) + flushed.reasoning == ReasoningText(s.content);
    }
  }

  /** End to end: a streamed generation into a fresh assistant message never
      throws; its answer text is the reference reading's answer for the
      concatenated answer texts, its reasoning the reference reading's
      reasoning when no native reasoning arrived, and its reasoning item (if
      any) ends collapsed, completed and timed. */
  lemma StreamGenerationCorrect(incoming: seq<Read>, endNow: int)
    ensures var r := StreamGeneration([Text("")], incoming, endNow);
      var whole := Whole(Concat(StreamChunks(incoming)), false);
      && r.Success? && WellFormed(r.value) && Finished(r.value)
      && AnswerText(r.value) == whole.content
      && (StreamWithoutNativeReasoning(incoming) ==> ReasoningText(r.value) == whole.reasoning)
  {
    var c: seq<ContentItem> := [Text("")];
    assert WellFormed(c) && FirstReasoning(c).None? && AnswerText(c) == "";
    StreamGenerationFromEmpty(c, incoming, endNow);
  }

  /** The same, for any well-formed message with no answer text and no
      reasoning item. */
  lemma StreamGenerationFromEmpty(c: seq<ContentItem>, incoming: seq<Read>, endNow: int)
    requires WellFormed(c) && FirstReasoning(c).None? && AnswerText(c) == ""
    ensures var r := StreamGeneration(c, incoming, endNow);
      var whole := Whole(Concat(StreamChunks(incoming)), false);
      && r.Success? && WellFormed(r.value) && Finished(r.value)
      && AnswerText(r.value) == whole.content
      && (StreamWithoutNativeReasoning(incoming) ==> ReasoningText(r.value) == whole.reasoning)
  {
    var s0 := StreamState(c, Initial, Timer(None, false));
    FirstReasoningWellFormed(c);
    assert ReasoningText(c) == "";
    assert Agrees(s0.content, s0.timer);
    RunKeepsShape(incoming, s0);
    RunKeepsAgreement(incoming, s0);
    var s := RunStream(incoming, s0).value;
    FinishKeepsShape(s, endNow);
    var chunks := StreamChunks(incoming);
    ParseAllIsWhole(chunks);
    var fed := Feed(chunks, Initial);
    assert ParseAll(chunks) == fed.emit.Then(FlushThinkState(fed.next).emit);
    StringAssoc("", fed.emit.content, FlushThinkState(fed.next).emit.content);
    StringAssoc("", fed.emit.reasoning, FlushThinkState(fed.next).emit.reasoning);
  }

  // The copy-then-mutate of the store

  /** The content of the latest message of the chat at `index`; reading it
      throws when there is no such chat or it has no messages. */
  function LatestContent(chats: seq<Chat>, index: int): (r: Result<seq<ContentItem>>)
    ensures r.Success? <==> 0 <= index < |chats| && |chats[index].messages| > 0
  {
    if 0 <= index < |chats| && |chats[index].messages| > 0 then
      Success(chats[index].messages[|chats[index].messages| - 1].content)
    else Failure("TypeError: latest message is undefined")
  }

  /** The chats with the latest message of chat `index` given new content:
      what `setChats(updatedChats)` commits after an update. */
  function SetLatestContent(chats: seq<Chat>, index: int, c: seq<ContentItem>): (r: Result<seq<Chat>>)
    ensures r.Success? <==> LatestContent(chats, index).Success?
    ensures r.Success? ==> LatestContent(r.value, index) == Success(c)
    ensures r.Success? ==>
      && |r.value| == |chats|
      && (forall j | 0 <= j < |chats| && j != index :: r.value[j] == chats[j])
      && var before, after := chats[index].messages, r.value[index].messages;
      && r.value[index] == chats[index].(messages := after)
      && |after| == |before| && after[..|after| - 1] == before[..|before| - 1]
      && after[|after| - 1].role == before[|before| - 1].role
  {
    if 0 <= index < |chats| && |chats[index].messages| > 0 then
      var msgs := chats[index].messages;
      var last := |msgs| - 1;
      Success(chats[index := chats[index].(messages := msgs[last := msgs[last].(content := c)])])
    else Failure("TypeError: latest message is undefined")
  }

  /** The store after an update differs from the store before only in the
      content of the latest message of chat `index`. */
  predicate OnlyLatestChanged(before: seq<Chat>, after: seq<Chat>, index: int) {
    && 0 <= index < |before| == |after| && |before[index].messages| > 0
    && (forall j | 0 <= j < |before| && j != index :: after[j] == before[j])
    && var b, a := before[index].messages, after[index].messages;
    && after[index] == before[index].(messages := a)
    && |a| == |b| && a[..|a| - 1] == b[..|b| - 1] && a[|a| - 1].role == b[|b| - 1].role
  }

  lemma OnlyLatestChangedTrans(a: seq<Chat>, b: seq<Chat>, c: seq<Chat>, index: int)
    requires OnlyLatestChanged(a, b, index) && OnlyLatestChanged(b, c, index)
    ensures OnlyLatestChanged(a, c, index)
  {
  }

  /** `applyStreamResultStrings` as it runs against the store: it copies the
      chats the store holds at that moment, reads the latest message of chat
      `index`, applies the result to it and commits the copy. Whatever was
      edited in the store since the previous update is its starting point. */
  function StoreUpdate(chats: seq<Chat>, index: int, rs: ResultStrings, timer: Timer, now: int): (r: Result<(seq<Chat>, Timer)>)
    ensures r.Success? <==>
      LatestContent(chats, index).Success? && ApplyStreamResult(LatestContent(chats, index).value, rs, timer, now).Success?
    ensures r.Success? ==>
      var a := ApplyStreamResult(LatestContent(chats, index).value, rs, timer, now).value;
      LatestContent(r.value.0, index) == Success(a.content) && r.value.1 == a.timer
      && OnlyLatestChanged(chats, r.value.0, index)
  {
    var c :- LatestContent(chats, index);
    var a :- ApplyStreamResult(c, rs, timer, now);
    Success((SetLatestContent(chats, index, a.content).value, a.timer))
  }

  /** What the loop keeps in local variables between reads: the parser
      state and the timer. The message itself lives in the store. */
  datatype LoopState = LoopState(think: ParserState, timer: Timer)

  /** One pass of the stream loop against the store. */
  function StoreStepBatch(chats: seq<Chat>, index: int, s: LoopState, events: seq<Event>, now: int): (r: Result<(seq<Chat>, LoopState)>)
    ensures LatestContent(chats, index).Failure? ==> r.Failure?
    ensures r.Success? ==> OnlyLatestChanged(chats, r.value.0, index)
  {
    var f := FoldEvents(events, FoldState(NoResult, s.think, s.timer.start), now);
    var u :- StoreUpdate(chats, index, f.out, Timer(f.start, s.timer.completed), now);
    Success((u.0, LoopState(f.think, u.1)))
  }

  /** With nothing edited between reads, a pass against the store is the
      pass on the latest message's content that `StepBatch` describes. */
  lemma StoreStepIsStepBatch(chats: seq<Chat>, index: int, s: LoopState, events: seq<Event>, now: int)
    requires LatestContent(chats, index).Success?
    ensures var step := StepBatch(StreamState(LatestContent(chats, index).value, s.think, s.timer), events, now);
      var r := StoreStepBatch(chats, index, s, events, now);
      && (r.Success? <==> step.Success?)
      && (r.Success? ==>
           LatestContent(r.value.0, index) == Success(step.value.content)
           && r.value.1 == LoopState(step.value.think, step.value.timer))
  {
  }

  /** The `while (reading && generating)` loop against the store, where no
      one else edits the store between reads. */
  function StoreRunStream(incoming: seq<Read>, chats: seq<Chat>, index: int, s: LoopState): Result<(seq<Chat>, LoopState)>
    decreases |incoming|
  {
    if |incoming| == 0 || !incoming[0].Batch? then Success((chats, s))
    else
      var next :- StoreStepBatch(chats, index, s, incoming[0].events, incoming[0].now);
      StoreRunStream(incoming[1..], next.0, index, next.1)
  }

  /** The store-level loop is the content-level loop on the latest message. */
  lemma {:induction false} StoreRunIsRunStream(incoming: seq<Read>, chats: seq<Chat>, index: int, s: LoopState)
    requires LatestContent(chats, index).Success?
    ensures var run := RunStream(incoming, StreamState(LatestContent(chats, index).value, s.think, s.timer));
      var r := StoreRunStream(incoming, chats, index, s);
      && (r.Success? <==> run.Success?)
      && (r.Success? ==>
           LatestContent(r.value.0, index) == Success(run.value.content)
           && r.value.1 == LoopState(run.value.think, run.value.timer)
           && OnlyLatestChanged(chats, r.value.0, index))
    decreases |incoming|
  {
    if |incoming| > 0 && incoming[0].Batch? {
      StoreStepIsStepBatch(chats, index, s, incoming[0].events, incoming[0].now);
      var step := StoreStepBatch(chats, index, s, incoming[0].events, incoming[0].now);
      if step.Success? {
        StoreRunIsRunStream(incoming[1..], step.value.0, index, step.value.1);
        var r := StoreRunStream(incoming[1..], step.value.0, index, step.value.1);
        if r.Success? {
          OnlyLatestChangedTrans(chats, step.value.0, r.value.0, index);
        }
      }
    }
  }

  /** After the loop, against the store: the update that releases the
      parser's carry, then the close of a timer still running. */
  function StoreFinish(chats: seq<Chat>, index: int, s: LoopState, now: int): Result<seq<Chat>> {
    var u :- StoreFlush(chats, index, s, now);
    StoreClose(u.0, index, u.1, now)
  }

  /** The update that releases the parser's carry, skipped when the carry
      is empty. */
  function StoreFlush(chats: seq<Chat>, index: int, s: LoopState, now: int): Result<(seq<Chat>, Timer)> {
    var flushed := FlushThinkState(s.think).emit;
    if flushed.reasoning != "" || flushed.content != "" then
      var start := if flushed.reasoning != "" && s.timer.start.None? then Some(now) else s.timer.start;
      StoreUpdate(chats, index, ResultStrings(flushed.content, flushed.reasoning, flushed.content != ""), Timer(start, s.timer.completed), now)
    else Success((chats, s.timer))
  }

  /** A timer still running completes the reasoning item of the latest
      message; the copy is committed only when there is such an item. */
  function StoreClose(chats: seq<Chat>, index: int, timer: Timer, now: int): Result<seq<Chat>> {
    if timer.start.Some? && !timer.completed then
      var c :- LatestContent(chats, index);
      if FirstReasoning(c).None? then Success(chats)
      else SetLatestContent(chats, index, CompleteReasoning(c, DurationSeconds(timer.start.value, now)))
    else Success(chats)
  }

  lemma StoreFlushIsFlushCarry(chats: seq<Chat>, index: int, s: LoopState, now: int)
    requires LatestContent(chats, index).Success?
    ensures var fl := FlushCarry(StreamState(LatestContent(chats, index).value, s.think, s.timer), now);
      var r := StoreFlush(chats, index, s, now);
      && (r.Success? <==> fl.Success?)
      && (r.Success? ==>
           LatestContent(r.value.0, index) == Success(fl.value.content) && r.value.1 == fl.value.timer
           && OnlyLatestChanged(chats, r.value.0, index))
  {
  }

  lemma StoreCloseIsCloseTimer(chats: seq<Chat>, index: int, timer: Timer, now: int)
    requires LatestContent(chats, index).Success?
    ensures var r := StoreClose(chats, index, timer, now);
      && r.Success?
      && LatestContent(r.value, index) == Success(CloseTimer(Applied(LatestContent(chats, index).value, timer), now))
      && OnlyLatestChanged(chats, r.value, index)
  {
  }

  /** The store-level finish is `FinishStream` on the latest message. */
  lemma StoreFinishIsFinishStream(chats: seq<Chat>, index: int, s: LoopState, now: int)
    requires LatestContent(chats, index).Success?
    ensures var fin := FinishStream(StreamState(LatestContent(chats, index).value, s.think, s.timer), now);
      var r := StoreFinish(chats, index, s, now);
      && (r.Success? <==> fin.Success?)
      && (r.Success? ==> LatestContent(r.value, index) == fin && OnlyLatestChanged(chats, r.value, index))
  {
    StoreFlushIsFlushCarry(chats, index, s, now);
    var u := StoreFlush(chats, index, s, now);
    if u.Success? {
      StoreCloseIsCloseTimer(u.value.0, index, u.value.1, now);
      OnlyLatestChangedTrans(chats, u.value.0, StoreFinish(chats, index, s, now).value, index);
    }
  }

  /** A streamed generation into the latest message of chat `index` as the
      submit hook runs it against the store. */
  function StoreGeneration(chats: seq<Chat>, index: int, incoming: seq<Read>, endNow: int): Result<seq<Chat>> {
    var run :- StoreRunStream(incoming, chats, index, LoopState(Initial, Timer(None, false)));
    StoreFinish(run.0, index, run.1, endNow)
  }

  /** End to end, against the store: a generation into a fresh assistant
      message changes only that message, and leaves in it what
      `StreamGeneration` computes, so `StreamGenerationCorrect` applies. */
  lemma StoreGenerationIsStreamGeneration(chats: seq<Chat>, index: int, incoming: seq<Read>, endNow: int)
    requires LatestContent(chats, index).Success?
    ensures var gen := StreamGeneration(LatestContent(chats, index).value, incoming, endNow);
      var r := StoreGeneration(chats, index, incoming, endNow);
      && (r.Success? <==> gen.Success?)
      && (r.Success? ==> LatestContent(r.value, index) == gen && OnlyLatestChanged(chats, r.value, index))
  {
    var s0 := LoopState(Initial, Timer(None, false));
    StoreRunIsRunStream(incoming, chats, index, s0);
    var run := StoreRunStream(incoming, chats, index, s0);
    if run.Success? {
      StoreFinishIsFinishStream(run.value.0, index, run.value.1, endNow);
      var r := StoreFinish(run.value.0, index, run.value.1, endNow);
      if r.Success? {
        OnlyLatestChangedTrans(chats, run.value.0, r.value, index);
      }
    }
  }

  /** End to end against the store: streaming into the empty assistant
      placeholder never throws, changes nothing but that message, and leaves
      in it the reference reading of the answer texts. */
  lemma StoreGenerationCorrect(chats: seq<Chat>, index: int, incoming: seq<Read>, endNow: int)
    requires LatestContent(chats, index) == Success([Text("")])
    ensures var r := StoreGeneration(chats, index, incoming, endNow);
      var whole := Whole(Concat(StreamChunks(incoming)), false);
      && r.Success? && OnlyLatestChanged(chats, r.value, index)
      && var c := LatestContent(r.value, index).value;
      && WellFormed(c) && Finished(c) && AnswerText(c) == whole.content
      && (StreamWithoutNativeReasoning(incoming) ==> ReasoningText(c) == whole.reasoning)
  {
    StoreGenerationIsStreamGeneration(chats, index, incoming, endNow);
    StreamGenerationCorrect(incoming, endNow);
  }

  /** The reader toggles the reasoning block of the message being generated
      between two reads. The next pass reads the toggled message back from
      the store: it keeps the reader's choice, unless this pass is the one
      that completes the block, which collapses it as it would have anyway.
      The timer and the parser do not notice the edit. */
  lemma ToggleBetweenReads(chats: seq<Chat>, index: nat, s: LoopState, events: seq<Event>, now: int, isOpen: bool)
    requires index < |chats| && |chats[index].messages| > 0
    requires FirstReasoning(chats[index].messages[|chats[index].messages| - 1].content).Some?
    ensures var last := |chats[index].messages| - 1;
      var toggled := ContentView.HandleReasoningToggle(chats, index, last, isOpen).value;
      var plain := StoreStepBatch(chats, index, s, events, now);
      var edited := StoreStepBatch(toggled, index, s, events, now);
      && plain.Success? && edited.Success? && edited.value.1 == plain.value.1
      && FirstReasoning(plain.value.0[index].messages[last].content).Some?
      && (plain.value.1.timer.completed && !s.timer.completed ==> edited.value.0 == plain.value.0)
      && (!(plain.value.1.timer.completed && !s.timer.completed) ==>
            edited.value.0 == ContentView.HandleReasoningToggle(plain.value.0, index, last, isOpen).value)
  {
    var last := |chats[index].messages| - 1;
    var c := chats[index].messages[last].content;
    var k := FirstReasoning(c).value;
    var f := FoldEvents(events, FoldState(NoResult, s.think, s.timer.start), now);
    var t := Timer(f.start, s.timer.completed);
    UpdateAfterCollapse(c, f.out, t, now, k, !isOpen);
    var a := ApplyStreamResult(c, f.out, t, now).value;
    var b := ApplyStreamResult(SetCollapsed(c, k, !isOpen), f.out, t, now).value;
    ToggleIsSetCollapsed(c, isOpen);
    HandleToggleIsSetLatest(chats, index, isOpen);
    var toggled := ContentView.HandleReasoningToggle(chats, index, last, isOpen).value;
    StoreStepSetsLatest(chats, index, s, events, now);
    StoreStepSetsLatest(toggled, index, s, events, now);
    var plain := SetLatestContent(chats, index, a.content).value;
    SetLatestTwice(chats, index, SetCollapsed(c, k, !isOpen), b.content);
    if !(a.timer.completed && !t.completed) {
      ToggleIsSetCollapsed(a.content, isOpen);
      HandleToggleIsSetLatest(plain, index, isOpen);
      SetLatestTwice(chats, index, a.content, b.content);
    }
  }

  lemma ToggleIsSetCollapsed(c: seq<ContentItem>, isOpen: bool)
    requires FirstReasoning(c).Some?
    ensures ContentView.ToggleReasoning(c, isOpen) == Some(SetCollapsed(c, FirstReasoning(c).value, !isOpen))
  {
    var l, r := ContentView.ToggleReasoning(c, isOpen).value, SetCollapsed(c, FirstReasoning(c).value, !isOpen);
    assert |l| == |r| && forall j | 0 <= j < |l| :: l[j] == r[j];
  }

  /** Toggling from the message view is committing new content for the
      latest message. */
  lemma HandleToggleIsSetLatest(chats: seq<Chat>, index: nat, isOpen: bool)
    requires index < |chats| && |chats[index].messages| > 0
    requires FirstReasoning(LatestContent(chats, index).value).Some?
    ensures var c := LatestContent(chats, index).value;
      ContentView.HandleReasoningToggle(chats, index, |chats[index].messages| - 1, isOpen)
        == Some(SetLatestContent(chats, index, ContentView.ToggleReasoning(c, isOpen).value).value)
  {
  }

  lemma StoreStepSetsLatest(chats: seq<Chat>, index: int, s: LoopState, events: seq<Event>, now: int)
    requires LatestContent(chats, index).Success?
    ensures var f := FoldEvents(events, FoldState(NoResult, s.think, s.timer.start), now);
      var a := ApplyStreamResult(LatestContent(chats, index).value, f.out, Timer(f.start, s.timer.completed), now);
      a.Success? ==>
        StoreStepBatch(chats, index, s, events, now)
          == Success((SetLatestContent(chats, index, a.value.content).value, LoopState(f.think, a.value.timer)))
  {
  }

  /** A second commit to the latest message overrides the first. */
  lemma SetLatestTwice(chats: seq<Chat>, index: int, x: seq<ContentItem>, y: seq<ContentItem>)
    requires LatestContent(chats, index).Success?
    ensures SetLatestContent(SetLatestContent(chats, index, x).value, index, y) == SetLatestContent(chats, index, y)
  {
    var m := chats[index].messages;
    var n := |m| - 1;
    var m' := m[n := m[n].(content := x)];
    var once := chats[index := chats[index].(messages := m')];
    assert SetLatestContent(chats, index, x).value == once;
    assert m'[n := m'[n].(content := y)] == m[n := m[n].(content := y)];
    var m'' := m[n := m[n].(content := y)];
    assert once[index].(messages := m'') == chats[index].(messages := m'');
    assert once[index := chats[index].(messages := m'')] == chats[index := chats[index].(messages := m'')];
    assert SetLatestContent(once, index, y).value == once[index := once[index].(messages := m'')];
  }

  // Non-streaming path

  /** The non-streaming path: the whole answer is parsed in one call and
      flushed; the answer text is appended to the first item even when empty,
      and non-empty reasoning becomes a collapsed, completed item at `Slot`.
      A missing or empty answer is an error. */
  function ApplyCompletion(c: seq<ContentItem>, answer: Option<string>): (r: Result<seq<ContentItem>>)
    ensures answer.None? || answer == Some("") ==> r.Failure?
  {
    if answer.None? || answer.value == "" then Failure("errors.failedToRetrieveData")
    else
      var parsed := ProcessThinkChunk(answer.value, Initial);
      var flushed := FlushThinkState(parsed.next).emit;
      var final := parsed.emit.Then(flushed);
      var appended :- AppendAnswer(c, final.content);
      if final.reasoning != "" then
        Success(InsertReasoning(appended, Reasoning(final.reasoning, true, Some(true), None)))
      else Success(appended)
  }

  /** On a well-formed message without reasoning the non-streaming path adds
      the reference reading of the answer: its answer part to the answer text,
      its reasoning part as the reasoning item's text. */
  lemma CompletionMatchesWhole(c: seq<ContentItem>, answer: string)
    requires WellFormed(c) && FirstReasoning(c).None? && answer != ""
    ensures var r := ApplyCompletion(c, Some(answer));
      && r.Success? && WellFormed(r.value)
      && AnswerText(r.value) == AnswerText(c) + Whole(answer, false).content
      && ReasoningText(r.value) == Whole(answer, false).reasoning
      && (FirstReasoning(r.value).Some? <==> Whole(answer, false).reasoning != "")
  {
    SingleCallIsWhole(answer);
    AppendWellFormed(c, Whole(answer, false).content);
    var appended := AppendAnswer(c, Whole(answer, false).content).value;
    FirstReasoningWellFormed(c);
    FirstReasoningWellFormed(appended);
    if Whole(answer, false).reasoning != "" {
      var r := InsertReasoning(appended, Reasoning(Whole(answer, false).reasoning, true, Some(true), None));
      assert RemoveAt(r, 1) == appended;
      assert forall i | 2 <= i < |r| :: r[i] == appended[i - 1];
    }
  }

  // Starting a submission

  /** How `handleSubmit` starts: ignored while generating or without chats;
      out of range, the push throws before anything is committed; otherwise an
      empty assistant message is committed, and the request carries the
      chat's previous messages without reasoning, unless there were none. */
  datatype Start =
    | Ignored
    | Crashed
    | Rejected(committed: seq<Chat>, error: string)
    | Started(committed: seq<Chat>, request: seq<Message>)

  /** The placeholder every generation starts from. */
  const EmptyAssistant: Message := Message(Assistant, [Text("")])

  function BeginSubmit(chats: Option<seq<Chat>>, index: int, generating: bool): (r: Start)
    ensures r.Started? ==>
      && chats.Some? && 0 <= index < |chats.value|
      && |r.request| == |chats.value[index].messages| > 0
      && r.request == StripReasoningFromMessages(chats.value[index].messages)
      && (forall i | 0 <= i < |r.request| ::
            r.request[i].role == chats.value[index].messages[i].role
            && forall j | 0 <= j < |r.request[i].content| :: !r.request[i].content[j].Reasoning?)
      && |r.committed| == |chats.value|
      && r.committed[index].messages == chats.value[index].messages + [EmptyAssistant]
      && forall j | 0 <= j < |chats.value| && j != index :: r.committed[j] == chats.value[j]
    ensures r.Rejected? ==> chats.Some? && 0 <= index < |chats.value| && chats.value[index].messages == []
  {
    if generating || chats.None? then Ignored
    else if !(0 <= index < |chats.value|) then Crashed
    else
      var chat := chats.value[index];
      var committed := chats.value[index := chat.(messages := chat.messages + [EmptyAssistant])];
      if |chat.messages| == 0 then Rejected(committed, "errors.noMessagesSubmitted")
      else Started(committed, StripReasoningFromMessages(chat.messages))
  }

  /** Reasoning recorded in the chat is never sent back: inserting a
      reasoning item into any of its messages leaves the request unchanged. */
  lemma RequestIgnoresReasoning(chats: seq<Chat>, index: nat, m: nat, entry: ContentItem)
    requires index < |chats| && m < |chats[index].messages|
    requires entry.Reasoning?
    ensures
      var msgs := chats[index].messages;
      var edited := chats[index := chats[index].(messages := msgs[m := msgs[m].(content := InsertReasoning(msgs[m].content, entry))])];
      && BeginSubmit(Some(edited), index, false).Started?
      && BeginSubmit(Some(chats), index, false).Started?
      && BeginSubmit(Some(edited), index, false).request == BeginSubmit(Some(chats), index, false).request
  {
    var msgs := chats[index].messages;
    var msgs' := msgs[m := msgs[m].(content := InsertReasoning(msgs[m].content, entry))];
    StripInsert(msgs[m].content, entry);
    var a := StripReasoningFromMessages(msgs');
    var b := StripReasoningFromMessages(msgs);
    forall i | 0 <= i < |msgs| ensures a[i] == b[i] {
    }
  }

  /** The placeholder message is well formed, so every generation into it
      keeps its shape. */
  lemma EmptyAssistantWellFormed()
    ensures WellFormed(EmptyAssistant.content) && AnswerText(EmptyAssistant.content) == ""
    ensures FirstReasoning(EmptyAssistant.content).None?
  {
  }
}
