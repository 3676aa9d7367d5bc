/** The `<think>` tag parser of the submit hook (src/hooks/useSubmit.ts).

    Some providers inline their reasoning in the answer channel as
    `<think>…</think>`. The parser keeps a two-field state (`inThink`, `carry`)
    between chunks: `carry` is the tail of the previous buffer that could still
    be the start of the marker being looked for, so that a marker split across
    chunk boundaries is never missed. A final flush releases the carry.

    `Whole` is an independent, character-by-character reference semantics of
    the whole stream; `ChunkInvariance` proves that feeding any chunking of a
    string and flushing gives exactly `Whole` of the concatenation. */
module ThinkParser {
  import opened Wrappers
  import opened Strings

  const OPEN: string := "<think>"
  const CLOSE: string := "</think>"

  /** The marker searched for in the current mode. */
  function Marker(inThink: bool): string {
    if inThink then CLOSE else OPEN
  }

  datatype ParserState = ParserState(inThink: bool, carry: string)

  /** The state a new generation starts with. */
  const Initial: ParserState := ParserState(false, "")

  /** What a call emits: answer text and reasoning text. */
  datatype Split = Split(content: string, reasoning: string) {
    function Then(next: Split): Split {
      Split(content + next.content, reasoning + next.reasoning)
    }
  }

  const Empty: Split := Split("", "")

  /** `s` emitted on the channel of the current mode. */
  function Emit(s: string, inThink: bool): Split {
    if inThink then Split("", s) else Split(s, "")
  }

  /** Result of one pass of the parser's `while` loop: either the mode's
      marker was found (`fragment` precedes it, `rest` follows it), or it was
      not and the last `|marker| - 1` characters are held back as `carry`. */
  datatype Iteration = Found(fragment: string, rest: string) | Held(fragment: string, carry: string)

  function Min(a: int, b: int): int {
    if a <= b then a else b
  }

  /** `c` is a suffix of `d`. */
  predicate IsSuffix(c: string, d: string) {
    |c| <= |d| && d[|d| - |c|..] == c
  }

  lemma SuffixOfConcat(c: string, x: string, y: string)
    requires IsSuffix(c, y)
    ensures IsSuffix(c, x + y)
  {
    assert (x + y)[|x + y| - |c|..] == y[|y| - |c|..];
  }

  lemma NoOccurrenceInPrefix(data: string, k: nat, m: string)
    requires k <= |data| && |m| > 0
    requires forall j :: 0 <= j < k ==> !Occurs(data, m, j)
    ensures !Contains(data[..k], m)
  {
    assert data[..k] + data[k..] == data;
    forall j | 0 <= j <= k && Occurs(data[..k], m, j) ensures false {
      OccursInPrefix(data[..k], data[k..], m, j);
    }
  }

  /** One pass of the loop body in the current mode: the buffer is split
      around the first marker, or into an emitted part and a held-back tail. */
  function Iterate(data: string, inThink: bool): (it: Iteration)
    ensures it.Found? ==> data == it.fragment + Marker(inThink) + it.rest
    ensures it.Held? ==> data == it.fragment + it.carry
    ensures it.Held? ==> |it.carry| == Min(|data|, |Marker(inThink)| - 1)
  {
    var m := Marker(inThink);
    var tail := |m| - 1;
    match IndexOf(data, m)
    case None =>
      if |data| > tail then Held(data[..|data| - tail], data[|data| - tail..]) else Held("", data)
    case Some(i) =>
      assert data == data[..i] + m + data[i + |m|..];
      Found(data[..i], data[i + |m|..])
  }

  /** Every emitted fragment is free of the mode's marker: a found marker is
      the first one in the buffer, and a held buffer contains none. */
  lemma IterateFirstMarker(data: string, inThink: bool)
    ensures !Contains(Iterate(data, inThink).fragment, Marker(inThink))
    ensures Iterate(data, inThink).Found? ==>
      forall j :: 0 <= j < |Iterate(data, inThink).fragment| ==> !Occurs(data, Marker(inThink), j)
    ensures Iterate(data, inThink).Held? ==> !Contains(data, Marker(inThink))
  {
    var m := Marker(inThink);
    var it := Iterate(data, inThink);
    match IndexOf(data, m)
    case None =>
      var k := |it.fragment|;
      assert it.fragment == data[..k];
      NoOccurrenceInPrefix(data, k, m);
    case Some(i) =>
      assert it.fragment == data[..i];
      NoOccurrenceInPrefix(data, i, m);
  }

  /** What one call to the parser returns: the emitted text and the new state. */
  datatype Step = Step(emit: Split, next: ParserState)

  /** The parser's `while (data.length > 0)` loop over the buffer `data`. */
  function Scan(data: string, inThink: bool): (r: Step)
    ensures |r.next.carry| < |Marker(r.next.inThink)|
    ensures IsSuffix(r.next.carry, data)
    ensures data == "" ==> r == Step(Empty, ParserState(inThink, ""))
    decreases |data|
  {
    if |data| == 0 then
      Step(Empty, ParserState(inThink, ""))
    else
      match Iterate(data, inThink)
      case Found(f, rest) =>
        var r := Scan(rest, !inThink);
        SuffixOfConcat(r.next.carry, f + Marker(inThink), rest);
        Step(Emit(f, inThink).Then(r.emit), r.next)
      case Held(f, c) =>
        SuffixOfConcat(c, f, c);
        Step(Emit(f, inThink), ParserState(inThink, c))
  }

  /** `processThinkChunk`: the previous carry is prepended to the chunk and the
      buffer is scanned. Afterwards the carry is shorter than the current
      mode's marker (so it cannot contain it) and is a suffix of the buffer. */
  function ProcessThinkChunk(chunk: string, st: ParserState): (r: Step)
    ensures |r.next.carry| < |Marker(r.next.inThink)|
    ensures !Contains(r.next.carry, Marker(r.next.inThink))
    ensures IsSuffix(r.next.carry, st.carry + chunk)
    ensures st.carry + chunk == "" ==> r == Step(Empty, st.(carry := ""))
  {
    var r := Scan(st.carry + chunk, st.inThink);
    assert !Contains(r.next.carry, Marker(r.next.inThink)) by {
      assert forall j :: !Occurs(r.next.carry, Marker(r.next.inThink), j);
    }
    r
  }

  /** `flushThinkState`: the held-back carry is released on the channel of the
      current mode; the mode itself is unchanged and the carry is cleared. */
  function FlushThinkState(st: ParserState): (r: Step)
    ensures r.emit.content + r.emit.reasoning == st.carry
    ensures st.inThink ==> r.emit.content == ""
    ensures !st.inThink ==> r.emit.reasoning == ""
    ensures r.next == ParserState(st.inThink, "")
  {
    if st.carry == "" then Step(Empty, st)
    else Step(Emit(st.carry, st.inThink), ParserState(st.inThink, ""))
  }

  /** Appending a fragment to the accumulated output, as `+=` does. */
  function Append(acc: Split, x: string, inThink: bool): (r: Split)
    ensures r == acc.Then(Emit(x, inThink))
  {
    assert acc.content + "" == acc.content && acc.reasoning + "" == acc.reasoning;
    if inThink then Split(acc.content, acc.reasoning + x) else Split(acc.content + x, acc.reasoning)
  }

  /** A pass that finds the marker: its fragment joins the output, and what
      is left to scan is the rest in the other mode. */
  lemma PassFound(acc: Split, data: string, inThink: bool)
    requires |data| > 0 && Iterate(data, inThink).Found?
    ensures var it := Iterate(data, inThink);
      var rest := Scan(it.rest, !inThink);
      && acc.Then(Scan(data, inThink).emit) == Append(acc, it.fragment, inThink).Then(rest.emit)
      && Scan(data, inThink).next == rest.next
  {
    var it := Iterate(data, inThink);
    ThenAssoc(acc, Emit(it.fragment, inThink), Scan(it.rest, !inThink).emit);
  }

  /** The last pass, when the marker is absent: its fragment joins the
      output and the held tail becomes the carry. */
  lemma PassHeld(acc: Split, data: string, inThink: bool)
    requires |data| > 0 && Iterate(data, inThink).Held?
    ensures var it := Iterate(data, inThink);
      && acc.Then(Scan(data, inThink).emit) == Append(acc, it.fragment, inThink)
      && Scan(data, inThink).next == ParserState(inThink, it.carry)
  {
  }

  /** Consumed markers alternate, starting with the one that leaves the
      starting mode: they number equally when the mode is back where it
      started, and the leaving marker is one ahead otherwise. */
  predicate Alternates(from: bool, to: bool, opens: nat, closes: nat) {
    if from then closes == opens + (if to then 0 else 1)
    else opens == closes + (if to then 1 else 0)
  }

  /** The loop of `processThinkChunk` as in the source, one pass of its body
      being `Iterate`, with ghost counters of the markers it consumes. It
      computes exactly `ProcessThinkChunk`, and it conserves characters:
      every character of the buffer is emitted, held back, or part of a
      consumed marker. */
  method ProcessThinkChunkLoop(chunk: string, st: ParserState)
    returns (content: string, reasoning: string, next: ParserState, ghost opens: nat, ghost closes: nat)
    ensures Step(Split(content, reasoning), next) == ProcessThinkChunk(chunk, st)
    ensures |st.carry| + |chunk| == |content| + |reasoning| + |next.carry| + |OPEN| * opens + |CLOSE| * closes
    ensures Alternates(st.inThink, next.inThink, opens, closes)
  {
    ghost var target := ProcessThinkChunk(chunk, st);
    assert |OPEN| == 7 && |CLOSE| == 8;
    var data := st.carry + chunk;
    var inThink := st.inThink;
    content, reasoning := "", "";
    opens, closes := 0, 0;
    EmptyThen(target.emit);
    while |data| > 0
      invariant |st.carry| + |chunk| == |content| + |reasoning| + |data| + 7 * opens + 8 * closes
      invariant Split(content, reasoning).Then(Scan(data, inThink).emit) == target.emit
      invariant Scan(data, inThink).next == target.next
      invariant Alternates(st.inThink, inThink, opens, closes)
      decreases |data|
    {
      ghost var acc := Split(content, reasoning);
      var it := Iterate(data, inThink);
      var added := Append(Split(content, reasoning), it.fragment, inThink);
      assert |added.content| + |added.reasoning| == |content| + |reasoning| + |it.fragment|;
      if it.Held? {
        assert |data| == |it.fragment| + |it.carry|;
        PassHeld(acc, data, inThink);
        content, reasoning := added.content, added.reasoning;
        next := ParserState(inThink, it.carry);
        return;
      }
      assert |data| == |it.fragment| + |Marker(inThink)| + |it.rest|;
      PassFound(acc, data, inThink);
      content, reasoning := added.content, added.reasoning;
      data := it.rest;
      if inThink {
        closes := closes + 1;
      } else {
        opens := opens + 1;
      }
      inThink := !inThink;
    }
    EmptyThen(Split(content, reasoning));
    next := ParserState(inThink, "");
  }

  // ---------------------------------------------------------------------
  // Reference semantics and chunk invariance

  /** Reading a whole string character by character: in each mode the mode's
      marker switches mode and is dropped, any other character goes to the
      mode's channel. */
  function Whole(s: string, inThink: bool): Split
    decreases |s|
  {
    if |s| == 0 then Empty
    else if StartsWith(s, Marker(inThink)) then Whole(s[|Marker(inThink)|..], !inThink)
    else Emit([s[0]], inThink).Then(Whole(s[1..], inThink))
  }

  lemma ThenAssoc(a: Split, b: Split, c: Split)
    ensures a.Then(b).Then(c) == a.Then(b.Then(c))
  {
    assert a.content + b.content + c.content == a.content + (b.content + c.content);
    assert a.reasoning + b.reasoning + c.reasoning == a.reasoning + (b.reasoning + c.reasoning);
  }

  lemma EmitConcat(a: string, b: string, inThink: bool)
    ensures Emit(a, inThink).Then(Emit(b, inThink)) == Emit(a + b, inThink)
  {
  }

  lemma EmptyThen(a: Split)
    ensures Empty.Then(a) == a && a.Then(Empty) == a
  {
  }

  /** A prefix without the mode's marker is emitted verbatim. */
  lemma {:induction false} SkipPlain(s: string, inThink: bool, k: nat)
    requires k <= |s|
    requires forall j :: 0 <= j < k ==> !Occurs(s, Marker(inThink), j)
    ensures Whole(s, inThink) == Emit(s[..k], inThink).Then(Whole(s[k..], inThink))
    decreases k
  {
    var m := Marker(inThink);
    if k == 0 {
      assert s[..0] == "" && s[0..] == s;
      EmptyThen(Whole(s, inThink));
    } else {
      OccursAtStart(s, m);
      assert !StartsWith(s, m);
      forall j | 0 <= j < k - 1 ensures !Occurs(s[1..], m, j) {
        OccursShift(s, m, j);
      }
      SkipPlain(s[1..], inThink, k - 1);
      assert s[1..][..k - 1] == s[1..k] && s[1..][k - 1..] == s[k..];
      ThenAssoc(Emit([s[0]], inThink), Emit(s[1..k], inThink), Whole(s[k..], inThink));
      EmitConcat([s[0]], s[1..k], inThink);
      assert [s[0]] + s[1..k] == s[..k];
    }
  }

  lemma StringAssoc(a: string, b: string, c: string)
    ensures a + b + c == a + (b + c)
  {
  }

  lemma ConcatAssoc(a: string, b: string, c: string, d: string)
    ensures a + b + c + d == a + b + (c + d)
  {
  }

  /** Reading a buffer that starts with a marker-free fragment and then the
      mode's marker: the fragment is emitted and the mode flips. */
  lemma WholeAtMarker(f: string, after: string, inThink: bool)
    requires forall j :: 0 <= j < |f| ==> !Occurs(f + Marker(inThink) + after, Marker(inThink), j)
    ensures Whole(f + Marker(inThink) + after, inThink) == Emit(f, inThink).Then(Whole(after, !inThink))
  {
    var m := Marker(inThink);
    var s := f + m + after;
    SkipPlain(s, inThink, |f|);
    assert s[..|f|] == f;
    var tail := s[|f|..];
    assert tail == m + after;
    assert StartsWith(tail, m);
    assert tail[|m|..] == after;
  }

  /** The scan of a buffer followed by whatever comes next emits a prefix of
      the reference reading, and the rest of the reading restarts from the
      scan's final state with the carry in front of the remaining input. */
  lemma {:induction false} ScanSound(data: string, inThink: bool, rest: string)
    ensures Whole(data + rest, inThink)
         == Scan(data, inThink).emit.Then(Whole(Scan(data, inThink).next.carry + rest, Scan(data, inThink).next.inThink))
    decreases |data|
  {
    if |data| == 0 {
      assert data + rest == rest;
      EmptyThen(Whole(rest, inThink));
    } else {
      match Iterate(data, inThink)
      case Found(f, after) =>
        ScanSound(after, !inThink, rest);
        ScanSoundFound(data, inThink, rest);
      case Held(f, c) =>
        ScanSoundHeld(data, inThink, rest);
    }
  }

  lemma ScanSoundFound(data: string, inThink: bool, rest: string)
    requires |data| > 0 && Iterate(data, inThink).Found?
    requires var after := Iterate(data, inThink).rest;
      Whole(after + rest, !inThink)
      == Scan(after, !inThink).emit.Then(Whole(Scan(after, !inThink).next.carry + rest, Scan(after, !inThink).next.inThink))
    ensures Whole(data + rest, inThink)
         == Scan(data, inThink).emit.Then(Whole(Scan(data, inThink).next.carry + rest, Scan(data, inThink).next.inThink))
  {
    var m := Marker(inThink);
    IterateFirstMarker(data, inThink);
    var f, after := Iterate(data, inThink).fragment, Iterate(data, inThink).rest;
    var r' := Scan(after, !inThink);
    assert Scan(data, inThink) == Step(Emit(f, inThink).Then(r'.emit), r'.next);
    ConcatAssoc(f, m, after, rest);
    forall j | 0 <= j < |f| ensures !Occurs(f + m + (after + rest), m, j) {
      OccursInPrefix(data, rest, m, j);
    }
    WholeAtMarker(f, after + rest, inThink);
    ThenAssoc(Emit(f, inThink), r'.emit, Whole(r'.next.carry + rest, r'.next.inThink));
  }

  lemma ScanSoundHeld(data: string, inThink: bool, rest: string)
    requires |data| > 0 && Iterate(data, inThink).Held?
    ensures Whole(data + rest, inThink)
         == Scan(data, inThink).emit.Then(Whole(Scan(data, inThink).next.carry + rest, Scan(data, inThink).next.inThink))
  {
    var m := Marker(inThink);
    var f, c := Iterate(data, inThink).fragment, Iterate(data, inThink).carry;
    assert Scan(data, inThink) == Step(Emit(f, inThink), ParserState(inThink, c));
    assert data == f + c;
    IterateFirstMarker(data, inThink);
    var whole := data + rest;
    assert whole[..|f|] == f && whole[|f|..] == c + rest;
    forall j | 0 <= j < |f| ensures !Occurs(whole, m, j) {
      OccursInPrefix(data, rest, m, j);
    }
    SkipPlain(whole, inThink, |f|);
  }

  /** The flush of a state whose carry is shorter than its marker is the
      reference reading of the carry. */
  lemma FlushSound(st: ParserState)
    requires |st.carry| < |Marker(st.inThink)|
    ensures FlushThinkState(st).emit == Whole(st.carry, st.inThink)
  {
    SkipPlain(st.carry, st.inThink, |st.carry|);
    assert st.carry[..|st.carry|] == st.carry;
    assert st.carry[|st.carry|..] == "";
    EmptyThen(Emit(st.carry, st.inThink));
  }

  /** Feeding a list of chunks in order, as the stream reader does. */
  function Feed(chunks: seq<string>, st: ParserState): Step
    decreases |chunks|
  {
    if |chunks| == 0 then Step(Empty, st)
    else
      var first := ProcessThinkChunk(chunks[0], st);
      var others := Feed(chunks[1..], first.next);
      Step(first.emit.Then(others.emit), others.next)
  }

  function Concat(chunks: seq<string>): string
    decreases |chunks|
  {
    if |chunks| == 0 then "" else chunks[0] + Concat(chunks[1..])
  }

  /** Everything a generation emits: all chunks from the initial state, then
      the final flush. */
  function ParseAll(chunks: seq<string>): Split {
    var fed := Feed(chunks, Initial);
    fed.emit.Then(FlushThinkState(fed.next).emit)
  }

  lemma {:induction false} FeedSound(chunks: seq<string>, st: ParserState)
    requires |st.carry| < |Marker(st.inThink)|
    ensures Feed(chunks, st).emit.Then(FlushThinkState(Feed(chunks, st).next).emit)
         == Whole(st.carry + Concat(chunks), st.inThink)
    decreases |chunks|
  {
    if |chunks| == 0 {
      FlushSound(st);
      EmptyThen(FlushThinkState(st).emit);
      assert st.carry + Concat(chunks) == st.carry;
    } else {
      var first := ProcessThinkChunk(chunks[0], st);
      var others := Feed(chunks[1..], first.next);
      assert Feed(chunks, st) == Step(first.emit.Then(others.emit), others.next);
      ScanSound(st.carry + chunks[0], st.inThink, Concat(chunks[1..]));
      StringAssoc(st.carry, chunks[0], Concat(chunks[1..]));
      FeedSound(chunks[1..], first.next);
      ThenAssoc(first.emit, others.emit, FlushThinkState(others.next).emit);
    }
  }

  /** The parse of any chunking is the reference reading of the concatenated
      input. */
  lemma ParseAllIsWhole(chunks: seq<string>)
    ensures ParseAll(chunks) == Whole(Concat(chunks), false)
  {
    FeedSound(chunks, Initial);
    assert Initial.carry + Concat(chunks) == Concat(chunks);
  }

  /** Chunk invariance: two chunkings of the same input, each followed by a
      flush, emit the same answer text and the same reasoning text. */
  lemma ChunkInvariance(a: seq<string>, b: seq<string>)
    requires Concat(a) == Concat(b)
    ensures ParseAll(a) == ParseAll(b)
  {
    ParseAllIsWhole(a);
    ParseAllIsWhole(b);
  }

  /** In particular, any chunking agrees with the one-call parse of the
      whole input used by the non-streaming path. */
  lemma ChunkingMatchesSingleCall(chunks: seq<string>)
    ensures ParseAll(chunks) == ParseAll([Concat(chunks)])
  {
    assert Concat([Concat(chunks)]) == Concat(chunks) + Concat([]);
    ChunkInvariance(chunks, [Concat(chunks)]);
  }

  /** One call on a whole text followed by a flush is the reference reading
      of that text. */
  lemma SingleCallIsWhole(s: string)
    ensures var first := ProcessThinkChunk(s, Initial);
      first.emit.Then(FlushThinkState(first.next).emit) == Whole(s, false)
  {
    var first := ProcessThinkChunk(s, Initial);
    ParseAllIsWhole([s]);
    assert Concat([s]) == s by {
      assert [s][1..] == [];
    }
    assert [s][1..] == [];
    assert Feed([s], Initial) == Step(first.emit.Then(Empty), first.next);
    EmptyThen(first.emit);
  }

  /** Text without a '<' is read verbatim on the current channel. */
  lemma WholePlain(x: string, rest: string, inThink: bool)
    requires '<' !in x
    ensures Whole(x + rest, inThink) == Emit(x, inThink).Then(Whole(rest, inThink))
  {
    var m := Marker(inThink);
    forall j | 0 <= j < |x| ensures !Occurs(x + rest, m, j) {
      assert (x + rest)[j] == x[j] != '<' == m[0];
    }
    SkipPlain(x + rest, inThink, |x|);
    assert (x + rest)[..|x|] == x && (x + rest)[|x|..] == rest;
  }

  /** The current mode's marker flips the mode and emits nothing. */
  lemma WholeMarker(rest: string, inThink: bool)
    ensures Whole(Marker(inThink) + rest, inThink) == Whole(rest, !inThink)
  {
    var m := Marker(inThink);
    assert StartsWith(m + rest, m);
    assert (m + rest)[|m|..] == rest;
  }

  /** Plain text with no marker left is read verbatim. */
  lemma WholeAllPlain(x: string, inThink: bool)
    requires '<' !in x
    ensures Whole(x, inThink) == Emit(x, inThink)
  {
    WholePlain(x, "", inThink);
    assert x + "" == x;
  }

  lemma WholeSpanTail(inside: string, after: string)
    requires '<' !in inside && '<' !in after
    ensures Whole(inside + (CLOSE + after), true) == Split(after, inside)
  {
    WholePlain(inside, CLOSE + after, true);
    WholeMarker(after, true);
    WholeAllPlain(after, false);
  }

  /** A single reasoning span between plain text is lifted out whole. */
  lemma WholeOneSpan(before: string, inside: string, after: string)
    requires '<' !in before && '<' !in inside && '<' !in after
    ensures Whole(before + (OPEN + (inside + (CLOSE + after))), false) == Split(before + after, inside)
  {
    WholeSpanTail(inside, after);
    WholeMarker(inside + (CLOSE + after), false);
    WholePlain(before, OPEN + (inside + (CLOSE + after)), false);
  }

  lemma Regroup(h: string, o1: string, o2: string, s1: string, s2: string, c1: string, c2: string, w: string)
    ensures (h + o1) + ((o2 + s1) + ((s2 + c1) + (c2 + w)))
         == h + ((o1 + o2) + ((s1 + s2) + ((c1 + c2) + w)))
  {
  }

  lemma ConcatFour(a: string, b: string, c: string, d: string)
    ensures Concat([a, b, c, d]) == a + (b + (c + d))
  {
    assert [d][1..] == [];
    assert Concat([d]) == d + "" == d;
    assert [c, d][1..] == [d];
    assert Concat([c, d]) == c + d;
    assert [b, c, d][1..] == [c, d];
    assert Concat([b, c, d]) == b + (c + d);
    assert [a, b, c, d][1..] == [b, c, d];
  }

  /** A reasoning span split across four chunks, both markers cut in two at
      chunk boundaries ("Hello <thi", "nk>sec", "ret</thi", "nk> world" is
      one instance): the answer is the text around the span and the
      reasoning is the text inside it. */
  lemma WorkedExample(before: string, s1: string, s2: string, after: string)
    requires '<' !in before && '<' !in s1 && '<' !in s2 && '<' !in after
    ensures ParseAll([before + "<thi", "nk>" + s1, s2 + "</thi", "nk>" + after]) == Split(before + after, s1 + s2)
  {
    var chunks := [before + "<thi", "nk>" + s1, s2 + "</thi", "nk>" + after];
    ConcatFour(chunks[0], chunks[1], chunks[2], chunks[3]);
    assert OPEN == "<thi" + "nk>" && CLOSE == "</thi" + "nk>";
    Regroup(before, "<thi", "nk>", s1, s2, "</thi", "nk>", after);
    assert Concat(chunks) == before + (OPEN + ((s1 + s2) + (CLOSE + after)));
    ParseAllIsWhole(chunks);
    WholeOneSpan(before, s1 + s2, after);
  }
}
