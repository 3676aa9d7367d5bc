/** The reasoning block of an assistant message, as the submit hook
    (src/hooks/useSubmit.ts) maintains it while a generation streams in:
    removing reasoning before a transcript is sent, placing a new reasoning
    item right after the answer text, appending text to it, the
    `max(1, ceil(ms / 1000))` timer and the completion latch. */
module ReasoningBlocks {
  import opened Wrappers
  import opened ChatTypes

  // Stripping

  /** `content.filter(entry => !isReasoningContent(entry))` */
  function StripReasoningFromContent(c: seq<ContentItem>): (r: seq<ContentItem>)
    ensures |r| <= |c|
    ensures forall i | 0 <= i < |r| :: !r[i].Reasoning?
    ensures forall x :: x in r <==> x in c && !x.Reasoning?
    ensures (forall i | 0 <= i < |c| :: !c[i].Reasoning?) ==> r == c
  {
    if |c| == 0 then []
    else
      var tail := StripReasoningFromContent(c[1..]);
      assert forall x :: x in c <==> x == c[0] || x in c[1..];
      assert (forall i | 0 <= i < |c| :: !c[i].Reasoning?) ==> tail == c[1..] by {
        if forall i | 0 <= i < |c| :: !c[i].Reasoning? {
          assert forall i | 0 <= i < |c| - 1 :: c[1..][i] == c[i + 1];
        }
      }
      if c[0].Reasoning? then tail else [c[0]] + tail
  }

  /** Stripping distributes over concatenation, so it keeps the relative
      order of everything it keeps. */
  lemma {:induction false} StripConcat(a: seq<ContentItem>, b: seq<ContentItem>)
    ensures StripReasoningFromContent(a + b) == StripReasoningFromContent(a) + StripReasoningFromContent(b)
    decreases |a|
  {
    if |a| == 0 {
      assert a + b == b;
    } else {
      assert (a + b)[1..] == a[1..] + b;
      StripConcat(a[1..], b);
    }
  }

  /** `stripReasoningFromMessages`: every message keeps its role, and its
      content loses its reasoning items. */
  function StripReasoningFromMessages(msgs: seq<Message>): (r: seq<Message>)
    ensures |r| == |msgs|
    ensures forall i | 0 <= i < |r| ::
      r[i].role == msgs[i].role && forall j | 0 <= j < |r[i].content| :: !r[i].content[j].Reasoning?
    ensures forall i | 0 <= i < |r| :: forall x :: x in r[i].content <==> x in msgs[i].content && !x.Reasoning?
  {
    seq(|msgs|, i requires 0 <= i < |msgs| =>
      msgs[i].(content := StripReasoningFromContent(msgs[i].content)))
  }

  lemma StripMessagesIdempotent(msgs: seq<Message>)
    ensures StripReasoningFromMessages(StripReasoningFromMessages(msgs)) == StripReasoningFromMessages(msgs)
  {
    var once := StripReasoningFromMessages(msgs);
    var twice := StripReasoningFromMessages(once);
    forall i | 0 <= i < |once| ensures twice[i] == once[i] {
      assert StripReasoningFromContent(once[i].content) == once[i].content;
    }
  }

  /** Replacing the first reasoning item by another reasoning item keeps it
      the first. */
  lemma FirstReasoningUpdate(c: seq<ContentItem>, k: nat, x: ContentItem)
    requires FirstReasoning(c) == Some(k) && x.Reasoning?
    ensures FirstReasoning(c[k := x]) == Some(k)
  {
    var r := c[k := x];
    assert forall j | 0 <= j < k :: r[j] == c[j];
    assert r[k].Reasoning?;
  }

  // Placement

  /** Where a new reasoning item goes: right after the first item, or as the
      only item of an empty content list. */
  function Slot(c: seq<ContentItem>): nat {
    if |c| > 0 then 1 else 0
  }

  function RemoveAt<T>(s: seq<T>, i: nat): seq<T>
    requires i < |s|
  {
    s[..i] + s[i + 1..]
  }

  /** `[content[0], entry, ...content.slice(1)]`, or `[entry]`. */
  function InsertReasoning(c: seq<ContentItem>, entry: ContentItem): (r: seq<ContentItem>)
    ensures |r| == |c| + 1 && Slot(c) < |r|
    ensures r[Slot(c)] == entry
    ensures RemoveAt(r, Slot(c)) == c
  {
    if |c| > 0 then [c[0], entry] + c[1..] else [entry]
  }

  /** Removing the inserted reasoning again leaves the transcript as sent
      before. */
  lemma StripInsert(c: seq<ContentItem>, entry: ContentItem)
    requires entry.Reasoning?
    ensures StripReasoningFromContent(InsertReasoning(c, entry)) == StripReasoningFromContent(c)
  {
    var r := InsertReasoning(c, entry);
    var k := Slot(c);
    assert r == r[..k] + [entry] + r[k + 1..];
    assert c == r[..k] + r[k + 1..];
    StripConcat(r[..k] + [entry], r[k + 1..]);
    StripConcat(r[..k], [entry]);
    StripConcat(r[..k], r[k + 1..]);
  }

  /** The entry a streamed reasoning delta creates. */
  const FreshReasoning: ContentItem := Reasoning("", false, Some(false), None)

  /** Step one of a stream update: the reasoning text of a batch is appended
      to the first reasoning item, which is created at `Slot` when there is
      none. An empty text changes nothing. */
  function AddReasoningText(c: seq<ContentItem>, text: string): (r: seq<ContentItem>)
    ensures text == "" ==> r == c
    ensures text != "" && FirstReasoning(c).Some? ==>
      var k := FirstReasoning(c).value;
      |r| == |c| && FirstReasoning(r) == Some(k) && r[k] == c[k].(text := c[k].text + text)
      && forall j | 0 <= j < |c| && j != k :: r[j] == c[j]
    ensures text != "" && FirstReasoning(c).None? ==>
      FirstReasoning(r) == Some(Slot(c)) && r[Slot(c)] == FreshReasoning.(text := text)
      && RemoveAt(r, Slot(c)) == c
  {
    if text == "" then c
    else match FirstReasoning(c)
      case Some(k) =>
        var r := c[k := c[k].(text := c[k].text + text)];
        FirstReasoningUpdate(c, k, r[k]);
        r
      case None =>
        var c1 := InsertReasoning(c, FreshReasoning);
        var k := Slot(c);
        var r := c1[k := FreshReasoning.(text := text)];
        assert forall j | 0 <= j < k :: !r[j].Reasoning?;
        assert RemoveAt(r, k) == RemoveAt(c1, k);
        r
  }

  // Timer

  /** `Math.ceil(x / 1000)` on integers. */
  function CeilDiv1000(x: int): (q: int)
    ensures 1000 * (q - 1) < x <= 1000 * q
  {
    -((-x) / 1000)
  }

  /** `Math.max(1, Math.ceil((now - start) / 1000))`: whole seconds of
      reasoning, rounded up, at least one. */
  function DurationSeconds(start: int, now: int): (d: nat)
    ensures d >= 1 && now - start <= 1000 * d
    ensures d == 1 || 1000 * (d - 1) < now - start
  {
    var q := CeilDiv1000(now - start);
    if q < 1 then 1 else q
  }

  /** A later reading of the clock never shows a shorter duration. */
  lemma DurationMonotone(start: int, now: int, later: int)
    requires now <= later
    ensures DurationSeconds(start, now) <= DurationSeconds(start, later)
  {
  }

  /** The live-duration update: while reasoning is running, the first
      reasoning item shows the elapsed duration and is marked not completed. */
  function TickReasoning(c: seq<ContentItem>, d: nat): (r: seq<ContentItem>)
    ensures |r| == |c| && FirstReasoning(r) == FirstReasoning(c)
    ensures FirstReasoning(c).Some? ==>
      var k := FirstReasoning(c).value;
      r[k] == c[k].(durationSeconds := Some(d), isCompleted := Some(false))
      && forall j | 0 <= j < |c| && j != k :: r[j] == c[j]
    ensures FirstReasoning(c).None? ==> r == c
  {
    match FirstReasoning(c)
    case None => c
    case Some(k) =>
      var r := c[k := c[k].(durationSeconds := Some(d), isCompleted := Some(false))];
      FirstReasoningUpdate(c, k, r[k]);
      r
  }

  /** Completion: the first reasoning item is collapsed and marked completed
      with its final duration. */
  function CompleteReasoning(c: seq<ContentItem>, d: nat): (r: seq<ContentItem>)
    ensures |r| == |c| && FirstReasoning(r) == FirstReasoning(c)
    ensures FirstReasoning(c).Some? ==>
      var k := FirstReasoning(c).value;
      r[k] == c[k].(isCollapsed := true, durationSeconds := Some(d), isCompleted := Some(true))
      && forall j | 0 <= j < |c| && j != k :: r[j] == c[j]
    ensures FirstReasoning(c).None? ==> r == c
  {
    match FirstReasoning(c)
    case None => c
    case Some(k) =>
      var r := c[k := c[k].(isCollapsed := true, durationSeconds := Some(d), isCompleted := Some(true))];
      FirstReasoningUpdate(c, k, r[k]);
      r
  }

  // Answer text

  /** `(content[0] as TextContentInterface).text += s`. An empty content list
      throws; a reasoning item in front receives the text in its own `text`
      field. An image in front has no `text` property: the first append
      gives it one holding "undefined" followed by the text, and later
      appends extend that property. The url and detail never change. */
  function AppendAnswer(c: seq<ContentItem>, s: string): (r: Result<seq<ContentItem>>)
    ensures r.Failure? <==> |c| == 0
    ensures r.Success? ==> |r.value| == |c| && r.value[1..] == c[1..]
    ensures r.Success? && c[0].Text? ==> r.value[0] == Text(c[0].text + s)
    ensures r.Success? && c[0].Reasoning? ==> r.value[0] == c[0].(text := c[0].text + s)
    ensures r.Success? && c[0].Image? ==>
      && r.value[0].Image? && r.value[0].url == c[0].url && r.value[0].detail == c[0].detail
      && r.value[0].strayText == Some(c[0].strayText.GetOr("undefined") + s)
  {
    if |c| == 0 then Failure("TypeError: content[0] is undefined")
    else match c[0]
      case Text(t) => Success(c[0 := Text(t + s)])
      case Reasoning(_, _, _, _) => Success(c[0 := c[0].(text := c[0].text + s)])
      case Image(url, detail, stray) => Success(c[0 := Image(url, detail, Some(stray.GetOr("undefined") + s))])
  }

  /** Two appends onto an image in front add up: the stray text holds
      "undefined" once, followed by both texts. */
  lemma AppendAnswerImageTwice(c: seq<ContentItem>, s1: string, s2: string)
    requires |c| > 0 && c[0].Image? && c[0].strayText.None?
    ensures AppendAnswer(c, s1).Success?
    ensures AppendAnswer(AppendAnswer(c, s1).value, s2).Success?
    ensures AppendAnswer(AppendAnswer(c, s1).value, s2).value[0].strayText == Some("undefined" + s1 + s2)
  {
    var r1 := AppendAnswer(c, s1).value;
    assert r1[0].strayText == Some("undefined" + s1);
  }

  // One stream update

  /** What a batch of events hands to the message: the answer text, the
      reasoning text, and whether any answer text arrived. */
  datatype ResultStrings = ResultStrings(content: string, reasoning: string, hasContent: bool)

  /** The reasoning timer: the time the first reasoning text arrived, and the
      latch set once the answer started after it. */
  datatype Timer = Timer(start: Option<int>, completed: bool)

  datatype Applied = Applied(content: seq<ContentItem>, timer: Timer)

  /** `applyStreamResultStrings` on the content of the latest message:
      reasoning first, then the live duration, then the completion latch, then
      the answer text. */
  function ApplyStreamResult(c: seq<ContentItem>, rs: ResultStrings, timer: Timer, now: int): (r: Result<Applied>)
    ensures r.Failure? <==> |c| == 0 && rs.reasoning == "" && rs.content != ""
    ensures r.Success? ==> r.value.timer.start == timer.start
    ensures r.Success? ==> r.value.timer.completed == (timer.completed || (rs.hasContent && timer.start.Some?))
    ensures r.Success? ==> |r.value.content| == |c| + (if rs.reasoning != "" && FirstReasoning(c).None? then 1 else 0)
  {
    var c1 := AddReasoningText(c, rs.reasoning);
    var running := timer.start.Some? && !timer.completed;
    var c2 := if running then TickReasoning(c1, DurationSeconds(timer.start.value, now)) else c1;
    var finishing := rs.hasContent && running;
    var c3 := if finishing then CompleteReasoning(c2, DurationSeconds(timer.start.value, now)) else c2;
    var t := Timer(timer.start, timer.completed || finishing);
    if rs.content != "" then
      var appended :- AppendAnswer(c3, rs.content);
      Success(Applied(appended, t))
    else
      Success(Applied(c3, t))
  }

  /** The shape the submit hook gives an assistant message: answer text first
      and at most one reasoning item, right after it. */
  predicate WellFormed(c: seq<ContentItem>) {
    |c| >= 1 && c[0].Text? && forall i | 0 <= i < |c| && i != 1 :: !c[i].Reasoning?
  }

  /** The answer text of a well-formed message. */
  function AnswerText(c: seq<ContentItem>): string
    requires WellFormed(c)
  {
    c[0].text
  }

  /** The reasoning text of a well-formed message, "" when it has none. */
  function ReasoningText(c: seq<ContentItem>): string
    requires WellFormed(c)
  {
    if |c| > 1 && c[1].Reasoning? then c[1].text else ""
  }

  /** In a well-formed message the only reasoning item sits at index 1. */
  lemma FirstReasoningWellFormed(c: seq<ContentItem>)
    requires WellFormed(c)
    ensures FirstReasoning(c).Some? <==> |c| > 1 && c[1].Reasoning?
    ensures FirstReasoning(c).Some? ==> FirstReasoning(c) == Some(1)
  {
  }

  lemma AddReasoningWellFormed(c: seq<ContentItem>, text: string)
    requires WellFormed(c)
    ensures var r := AddReasoningText(c, text);
      && WellFormed(r) && AnswerText(r) == AnswerText(c) && ReasoningText(r) == ReasoningText(c) + text
      && (FirstReasoning(r).Some? <==> FirstReasoning(c).Some? || text != "")
  {
    FirstReasoningWellFormed(c);
    var r := AddReasoningText(c, text);
    if text == "" {
      assert ReasoningText(c) + text == ReasoningText(c);
    } else if FirstReasoning(c).None? {
      assert RemoveAt(r, 1) == c;
      assert forall i | 2 <= i < |r| :: r[i] == c[i - 1];
    }
  }

  lemma TickWellFormed(c: seq<ContentItem>, d: nat)
    requires WellFormed(c)
    ensures var r := TickReasoning(c, d);
      && WellFormed(r) && AnswerText(r) == AnswerText(c) && ReasoningText(r) == ReasoningText(c)
  {
    FirstReasoningWellFormed(c);
  }

  lemma CompleteWellFormed(c: seq<ContentItem>, d: nat)
    requires WellFormed(c)
    ensures var r := CompleteReasoning(c, d);
      && WellFormed(r) && AnswerText(r) == AnswerText(c) && ReasoningText(r) == ReasoningText(c)
  {
    FirstReasoningWellFormed(c);
  }

  lemma AppendWellFormed(c: seq<ContentItem>, s: string)
    requires WellFormed(c)
    ensures AppendAnswer(c, s).Success?
    ensures var r := AppendAnswer(c, s).value;
      && WellFormed(r) && AnswerText(r) == AnswerText(c) + s && ReasoningText(r) == ReasoningText(c)
      && FirstReasoning(r) == FirstReasoning(c)
  {
    var r := AppendAnswer(c, s).value;
    assert forall i | 1 <= i < |r| :: r[i] == c[i] by {
      assert r[1..] == c[1..];
    }
    FirstReasoningWellFormed(c);
    FirstReasoningWellFormed(r);
  }

  /** On a well-formed message an update never throws, keeps the shape,
      appends the batch's answer text to the answer and its reasoning text to
      the reasoning, and creates a reasoning item only for non-empty
      reasoning text. */
  lemma ApplyWellFormed(c: seq<ContentItem>, rs: ResultStrings, timer: Timer, now: int)
    requires WellFormed(c)
    ensures ApplyStreamResult(c, rs, timer, now).Success?
    ensures var a := ApplyStreamResult(c, rs, timer, now).value.content;
      && WellFormed(a)
      && AnswerText(a) == AnswerText(c) + rs.content
      && ReasoningText(a) == ReasoningText(c) + rs.reasoning
      && (FirstReasoning(a).Some? <==> FirstReasoning(c).Some? || rs.reasoning != "")
  {
    var c1 := AddReasoningText(c, rs.reasoning);
    AddReasoningWellFormed(c, rs.reasoning);
    var running := timer.start.Some? && !timer.completed;
    var c2 := if running then TickReasoning(c1, DurationSeconds(timer.start.value, now)) else c1;
    if running {
      TickWellFormed(c1, DurationSeconds(timer.start.value, now));
    }
    var finishing := rs.hasContent && running;
    var c3 := if finishing then CompleteReasoning(c2, DurationSeconds(timer.start.value, now)) else c2;
    if finishing {
      CompleteWellFormed(c2, DurationSeconds(timer.start.value, now));
    }
    assert FirstReasoning(c3).Some? <==> FirstReasoning(c1).Some?;
    if rs.content != "" {
      AppendWellFormed(c3, rs.content);
    } else {
      assert AnswerText(c3) + rs.content == AnswerText(c3);
    }
  }

  /** Once the latch is set, an update touches the reasoning item's text
      only: its duration, completion and collapse state stay as they were. */
  lemma LatchHolds(c: seq<ContentItem>, rs: ResultStrings, timer: Timer, now: int)
    requires WellFormed(c) && timer.completed && FirstReasoning(c).Some?
    ensures var a := ApplyStreamResult(c, rs, timer, now);
      && a.Success? && a.value.timer == timer
      && var k := FirstReasoning(c).value;
      && FirstReasoning(a.value.content) == Some(k)
      && a.value.content[k] == c[k].(text := c[k].text + rs.reasoning)
  {
    ApplyWellFormed(c, rs, timer, now);
  }

  /** The first batch with answer text after reasoning started collapses the
      reasoning, marks it completed with the elapsed duration, and sets the
      latch. */
  lemma AnswerCompletesReasoning(c: seq<ContentItem>, rs: ResultStrings, start: int, now: int)
    requires WellFormed(c) && rs.hasContent && (FirstReasoning(c).Some? || rs.reasoning != "")
    ensures var a := ApplyStreamResult(c, rs, Timer(Some(start), false), now);
      && a.Success? && a.value.timer == Timer(Some(start), true)
      && var k := FirstReasoning(a.value.content).value;
      && a.value.content[k].isCollapsed
      && a.value.content[k].isCompleted == Some(true)
      && a.value.content[k].durationSeconds == Some(DurationSeconds(start, now))
  {
    ApplyWellFormed(c, rs, Timer(Some(start), false), now);
  }

  /** A reasoning item that is shown as finished. */
  predicate Finished(c: seq<ContentItem>) {
    FirstReasoning(c).Some? ==>
      var k := FirstReasoning(c).value;
      c[k].isCollapsed && c[k].isCompleted == Some(true) && c[k].durationSeconds.Some?
  }

  /** The timer agrees with the reasoning item of a well-formed message: it
      has started exactly when the item exists, and once latched the item is
      finished. */
  predicate Agrees(c: seq<ContentItem>, t: Timer) {
    && WellFormed(c)
    && (FirstReasoning(c).Some? <==> t.start.Some?)
    && (t.completed ==> t.start.Some? && Finished(c))
  }

  /** An update whose timer has started exactly when reasoning exists after
      the update keeps the timer in agreement with the item. */
  lemma ApplyKeepsAgreement(c: seq<ContentItem>, rs: ResultStrings, t: Timer, now: int)
    requires WellFormed(c)
    requires (FirstReasoning(c).Some? || rs.reasoning != "") <==> t.start.Some?
    requires t.completed ==> FirstReasoning(c).Some? && Finished(c)
    ensures var a := ApplyStreamResult(c, rs, t, now);
      a.Success? && Agrees(a.value.content, a.value.timer)
  {
    ApplyWellFormed(c, rs, t, now);
    if t.completed {
      LatchHolds(c, rs, t, now);
    } else if rs.hasContent && t.start.Some? {
      AnswerCompletesReasoning(c, rs, t.start.value, now);
    }
  }

  /** The end-of-stream timer close: a timer still running finishes the
      reasoning item, so afterwards any reasoning item is finished. */
  lemma FinishTimer(c: seq<ContentItem>, t: Timer, now: int)
    requires Agrees(c, t)
    ensures var r := if t.start.Some? && !t.completed then CompleteReasoning(c, DurationSeconds(t.start.value, now)) else c;
      && WellFormed(r) && Finished(r)
      && AnswerText(r) == AnswerText(c) && ReasoningText(r) == ReasoningText(c)
  {
    if t.start.Some? && !t.completed {
      CompleteWellFormed(c, DurationSeconds(t.start.value, now));
    }
  }

  // Edits made between two updates

  /** The reader opens or collapses the reasoning block of item `k`. */
  function SetCollapsed(c: seq<ContentItem>, k: nat, v: bool): (r: seq<ContentItem>)
    requires k < |c| && c[k].Reasoning?
    ensures |r| == |c| && r[k].Reasoning? && r[k].isCollapsed == v
    ensures r[k].(isCollapsed := c[k].isCollapsed) == c[k]
    ensures forall j | 0 <= j < |c| && j != k :: r[j] == c[j]
  {
    c[k := c[k].(isCollapsed := v)]
  }

  /** An edit that keeps item `k` a reasoning item and leaves no reasoning
      item before it keeps `k` the first reasoning item. */
  lemma FirstReasoningKept(c: seq<ContentItem>, r: seq<ContentItem>, k: nat)
    requires FirstReasoning(c) == Some(k) && |r| == |c| && r[k].Reasoning?
    requires forall j | 0 <= j < k :: !r[j].Reasoning?
    ensures FirstReasoning(r) == Some(k)
  {
    var f := FirstReasoning(r);
    assert f.Some? && f.value <= k;
  }

  lemma AddCollapse(c: seq<ContentItem>, k: nat, v: bool, x: string)
    requires FirstReasoning(c) == Some(k)
    ensures FirstReasoning(AddReasoningText(c, x)) == Some(k)
    ensures AddReasoningText(SetCollapsed(c, k, v), x) == SetCollapsed(AddReasoningText(c, x), k, v)
  {
    var c' := SetCollapsed(c, k, v);
    FirstReasoningUpdate(c, k, c'[k]);
    if x != "" {
      var a := AddReasoningText(c, x);
      var l, r := AddReasoningText(c', x), SetCollapsed(a, k, v);
      assert l[k] == r[k];
      forall j | 0 <= j < |l| && j != k ensures l[j] == r[j] {
        assert l[j] == c'[j] == c[j] == a[j];
      }
    }
  }

  lemma TickCollapse(c: seq<ContentItem>, k: nat, v: bool, d: nat)
    requires FirstReasoning(c) == Some(k)
    ensures FirstReasoning(TickReasoning(c, d)) == Some(k)
    ensures TickReasoning(SetCollapsed(c, k, v), d) == SetCollapsed(TickReasoning(c, d), k, v)
  {
    FirstReasoningUpdate(c, k, c[k].(isCollapsed := v));
    var l, r := TickReasoning(SetCollapsed(c, k, v), d), SetCollapsed(TickReasoning(c, d), k, v);
    assert |l| == |r| && forall j | 0 <= j < |l| :: l[j] == r[j];
  }

  /** Completion collapses the block whatever the reader left it as. */
  lemma CompleteOverridesCollapse(c: seq<ContentItem>, k: nat, v: bool, d: nat)
    requires FirstReasoning(c) == Some(k)
    ensures CompleteReasoning(SetCollapsed(c, k, v), d) == CompleteReasoning(c, d)
  {
    var c' := SetCollapsed(c, k, v);
    FirstReasoningUpdate(c, k, c'[k]);
    var l, r := CompleteReasoning(c', d), CompleteReasoning(c, d);
    assert l[k] == r[k];
    forall j | 0 <= j < |l| && j != k ensures l[j] == r[j] {
      assert l[j] == c'[j] == c[j] == r[j];
    }
  }

  lemma AppendCollapse(c: seq<ContentItem>, k: nat, v: bool, s: string)
    requires FirstReasoning(c) == Some(k)
    ensures AppendAnswer(c, s).Success? && AppendAnswer(SetCollapsed(c, k, v), s).Success?
    ensures FirstReasoning(AppendAnswer(c, s).value) == Some(k)
    ensures AppendAnswer(SetCollapsed(c, k, v), s).value == SetCollapsed(AppendAnswer(c, s).value, k, v)
  {
    var a := AppendAnswer(c, s).value;
    assert forall j | 1 <= j < |c| :: a[j] == c[j] by {
      assert a[1..] == c[1..];
    }
    FirstReasoningKept(c, a, k);
    var l, r := AppendAnswer(SetCollapsed(c, k, v), s).value, SetCollapsed(a, k, v);
    var c' := SetCollapsed(c, k, v);
    assert forall j | 1 <= j < |c| :: l[j] == c'[j] by {
      assert l[1..] == c'[1..];
    }
    assert |l| == |r| && forall j | 0 <= j < |l| :: l[j] == r[j];
  }

  /** An update after the reader opened or collapsed the block: the same
      update, with the reader's choice kept unless this update is the one
      that completes the block, which collapses it. */
  lemma UpdateAfterCollapse(c: seq<ContentItem>, rs: ResultStrings, t: Timer, now: int, k: nat, v: bool)
    requires FirstReasoning(c) == Some(k)
    ensures var a := ApplyStreamResult(c, rs, t, now);
      var b := ApplyStreamResult(SetCollapsed(c, k, v), rs, t, now);
      && a.Success? && b.Success? && b.value.timer == a.value.timer
      && FirstReasoning(a.value.content) == Some(k)
      && (a.value.timer.completed && !t.completed ==> b.value.content == a.value.content)
      && (!(a.value.timer.completed && !t.completed) ==> b.value.content == SetCollapsed(a.value.content, k, v))
  {
    var running := t.start.Some? && !t.completed;
    var finishing := rs.hasContent && running;
    var d := if running then DurationSeconds(t.start.value, now) else 0;
    var c1 := AddReasoningText(c, rs.reasoning);
    AddCollapse(c, k, v, rs.reasoning);
    var c2 := if running then TickReasoning(c1, d) else c1;
    if running {
      TickCollapse(c1, k, v, d);
    }
    var c3 := if finishing then CompleteReasoning(c2, d) else c2;
    assert FirstReasoning(c3) == Some(k);
    if finishing {
      CompleteOverridesCollapse(c2, k, v, d);
    }
    if rs.content != "" {
      AppendCollapse(c3, k, v, rs.content);
    }
  }
}
