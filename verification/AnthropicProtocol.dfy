/**
 The Anthropic event stream: what a client may be sent, what it rebuilds from it, and which
 stream answers a given sequence of upstream events.  `AnthropicStream` proves that the writer,
 which allocates block indices early and emits tool blocks late, sends exactly this stream.
 */
module AnthropicProtocol {
  import opened Collections
  import opened Text
  import opened Wrappers

  // ----- both sides of the translation -----

  /** An upstream event; an id, a name or a text that is absent or not a string reads as "". */
  datatype UpEvent =
    | Content(text: string)
    | ToolCall(id: string, name: string, args: Option<string>)
    | FinishMetadata(reason: Option<string>)
    | Other

  function Given(text: Option<string>): string {
    if text.Some? then text.value else ""
  }

  datatype BlockKind = TextBlock | ToolUse(id: string, name: string)

  datatype OutEvent =
    | MessageStart
    | BlockStart(index: nat, kind: BlockKind)
    | TextDelta(index: nat, text: string)
    | InputDelta(index: nat, json: string)
    | BlockStop(index: nat)
    | MessageDelta(stopReason: string)
    | MessageStop

  const STOP_TOOL_USE := "tool_use"
  const STOP_MAX_TOKENS := "max_tokens"
  const STOP_END_TURN := "end_turn"

  function MapFinishReason(reason: string): (r: string)
    ensures r != ""
  {
    if reason == "tool_call" then STOP_TOOL_USE
    else if reason == "length" then STOP_MAX_TOKENS
    else STOP_END_TURN
  }

  // ----- the answer, read off the upstream events -----

  predicate StartsTool(e: UpEvent) {
    e.ToolCall? && e.id != "" && e.name != ""
  }

  /** The events at which a pending tool call is sent. */
  predicate Flushes(e: UpEvent) {
    e.Content? || e.FinishMetadata? || StartsTool(e)
  }

  function Fragment(e: UpEvent): string {
    if e.ToolCall? && e.id == "" then Given(e.args) else ""
  }

  /** The argument fragments up to the next flush point. */
  function ArgsAfter(events: seq<UpEvent>): string {
    if |events| == 0 || Flushes(events[0]) then ""
    else Fragment(events[0]) + ArgsAfter(events[1..])
  }

  function InputOf(raw: string): string {
    if TrimSpace(raw) == "" then "{}" else TrimSpace(raw)
  }

  /** A block of the answer; a text block keeps its deltas apart. */
  datatype Segment = TextSeg(chunks: seq<string>) | ToolSeg(id: string, name: string, input: string)

  function Join(text: string, segs: seq<Segment>): seq<Segment> {
    if |segs| > 0 && segs[0].TextSeg? then [TextSeg([text] + segs[0].chunks)] + segs[1..]
    else [TextSeg([text])] + segs
  }

  /** The blocks of the answer: runs of text between tool calls, and the tool calls. */
  function Segments(events: seq<UpEvent>): seq<Segment> {
    if |events| == 0 then []
    else
      var e, rest := events[0], Segments(events[1..]);
      if e.Content? && e.text != "" then Join(e.text, rest)
      else if StartsTool(e) then [ToolSeg(e.id, e.name, InputOf(ArgsAfter(events[1..])))] + rest
      else rest
  }

  /** The last finish reason that is not blank, or "". */
  function LastReason(events: seq<UpEvent>): string {
    if |events| == 0 then ""
    else if LastReason(events[1..]) != "" then LastReason(events[1..])
    else if events[0].FinishMetadata? then Given(events[0].reason)
    else ""
  }

  predicate HasTool(segs: seq<Segment>) {
    exists i :: 0 <= i < |segs| && segs[i].ToolSeg?
  }

  function StopReason(events: seq<UpEvent>): string {
    if LastReason(events) != "" then MapFinishReason(LastReason(events))
    else if HasTool(Segments(events)) then STOP_TOOL_USE
    else STOP_END_TURN
  }

  // ----- rendering it -----

  function Deltas(index: nat, chunks: seq<string>): seq<OutEvent> {
    if |chunks| == 0 then [] else [TextDelta(index, chunks[0])] + Deltas(index, chunks[1..])
  }

  function ToolEvents(index: nat, id: string, name: string, input: string): seq<OutEvent> {
    [BlockStart(index, ToolUse(id, name)), InputDelta(index, input), BlockStop(index)]
  }

  function RenderOne(seg: Segment, index: nat): seq<OutEvent> {
    match seg
    case TextSeg(chunks) => [BlockStart(index, TextBlock)] + Deltas(index, chunks) + [BlockStop(index)]
    case ToolSeg(id, name, input) => ToolEvents(index, id, name, input)
  }

  function Render(segs: seq<Segment>, index: nat): seq<OutEvent> {
    if |segs| == 0 then [] else RenderOne(segs[0], index) + Render(segs[1..], index + 1)
  }

  /** The whole stream for a sequence of upstream events. */
  function Trace(events: seq<UpEvent>): seq<OutEvent> {
    [MessageStart] + Render(Segments(events), 0) + [MessageDelta(StopReason(events)), MessageStop]
  }

  // ----- the grammar -----

  datatype Phase =
    | Begin
    | Idle(next: nat)
    | Open(index: nat, kind: BlockKind, hasDelta: bool)
    | Closing
    | Done
    | Bad

  /** message_start, blocks numbered 0, 1, 2, ... each start delta+ stop, message_delta, message_stop. */
  function Next(p: Phase, e: OutEvent): Phase {
    match e
    case MessageStart => if p.Begin? then Idle(0) else Bad
    case BlockStart(i, kind) => if p == Idle(i) then Open(i, kind, false) else Bad
    case TextDelta(i, _) => if p.Open? && p.index == i && p.kind.TextBlock? then Open(i, p.kind, true) else Bad
    case InputDelta(i, _) => if p.Open? && p.index == i && p.kind.ToolUse? && !p.hasDelta then Open(i, p.kind, true) else Bad
    case BlockStop(i) => if p.Open? && p.index == i && p.hasDelta then Idle(i + 1) else Bad
    case MessageDelta(_) => if p.Idle? then Closing else Bad
    case MessageStop => if p.Closing? then Done else Bad
  }

  function Parse(p: Phase, trace: seq<OutEvent>): Phase
    decreases |trace|
  {
    if |trace| == 0 then p else Parse(Next(p, trace[0]), trace[1..])
  }

  predicate WellFormed(trace: seq<OutEvent>) {
    Parse(Begin, trace) == Done
  }

  /** A stream cut short: nothing so far breaks the grammar. */
  predicate WellFormedSoFar(trace: seq<OutEvent>) {
    Parse(Begin, trace) != Bad
  }

  lemma {:induction false} ParseConcat(p: Phase, a: seq<OutEvent>, b: seq<OutEvent>)
    ensures Parse(p, a + b) == Parse(Parse(p, a), b)
    decreases |a|
  {
    if a == [] {
      assert a + b == b;
    } else {
      assert (a + b)[1..] == a[1..] + b;
      ParseConcat(Next(p, a[0]), a[1..], b);
    }
  }

  lemma {:induction false} BadStaysBad(trace: seq<OutEvent>)
    ensures Parse(Bad, trace) == Bad
  {
    if trace != [] {
      assert Next(Bad, trace[0]) == Bad;
      BadStaysBad(trace[1..]);
    }
  }

  lemma {:induction false} ParseDeltas(index: nat, chunks: seq<string>, hasDelta: bool)
    ensures Parse(Open(index, TextBlock, hasDelta), Deltas(index, chunks)) == Open(index, TextBlock, hasDelta || chunks != [])
    decreases |chunks|
  {
    if chunks != [] {
      assert Deltas(index, chunks)[1..] == Deltas(index, chunks[1..]);
      ParseDeltas(index, chunks[1..], true);
    }
  }

  /** Text blocks are never empty. */
  ghost predicate Solid(segs: seq<Segment>) {
    forall i :: 0 <= i < |segs| && segs[i].TextSeg? ==> segs[i].chunks != []
  }

  lemma {:induction false} SegmentsSolid(events: seq<UpEvent>)
    ensures Solid(Segments(events))
  {
    if events != [] {
      SegmentsSolid(events[1..]);
    }
  }

  lemma ParseOne(seg: Segment, index: nat)
    requires seg.TextSeg? ==> seg.chunks != []
    ensures Parse(Idle(index), RenderOne(seg, index)) == Idle(index + 1)
  {
    match seg
    case TextSeg(chunks) =>
      var start, stop := [BlockStart(index, TextBlock)], [BlockStop(index)];
      ParseConcat(Idle(index), start + Deltas(index, chunks), stop);
      ParseConcat(Idle(index), start, Deltas(index, chunks));
      assert start[1..] == [] && stop[1..] == [];
      assert Parse(Idle(index), start) == Parse(Open(index, TextBlock, false), []);
      ParseDeltas(index, chunks, false);
      assert Parse(Open(index, TextBlock, true), stop) == Parse(Idle(index + 1), []);
    case ToolSeg(id, name, input) =>
      var t := ToolEvents(index, id, name, input);
      assert t[1..] == [InputDelta(index, input), BlockStop(index)];
      assert t[1..][1..] == [BlockStop(index)];
      assert t[1..][1..][1..] == [];
      assert Parse(Idle(index), t)
          == Parse(Open(index, ToolUse(id, name), false), [InputDelta(index, input), BlockStop(index)])
          == Parse(Open(index, ToolUse(id, name), true), [BlockStop(index)])
          == Parse(Idle(index + 1), []);
  }

  lemma {:induction false} ParseRender(segs: seq<Segment>, index: nat)
    requires Solid(segs)
    ensures Parse(Idle(index), Render(segs, index)) == Idle(index + |segs|)
  {
    if segs != [] {
      ParseOne(segs[0], index);
      ParseRender(segs[1..], index + 1);
      ParseConcat(Idle(index), RenderOne(segs[0], index), Render(segs[1..], index + 1));
    }
  }

  /** Every answer is in the grammar, and so is every prefix of one as far as it goes. */
  lemma TraceWellFormed(events: seq<UpEvent>, cut: nat)
    requires cut <= |Trace(events)|
    ensures WellFormed(Trace(events)) && WellFormedSoFar(Trace(events)[..cut])
  {
    var segs := Segments(events);
    var start, body, end := [MessageStart], Render(segs, 0), [MessageDelta(StopReason(events)), MessageStop];
    SegmentsSolid(events);
    ParseRender(segs, 0);
    ParseConcat(Begin, start + body, end);
    ParseConcat(Begin, start, body);
    assert start[1..] == [] && end[1..] == [MessageStop] && end[1..][1..] == [];
    assert Parse(Begin, start) == Parse(Idle(0), []);
    assert Parse(Idle(|segs|), end) == Parse(Closing, end[1..]) == Parse(Done, []);
    var t := Trace(events);
    assert t == t[..cut] + t[cut..];
    ParseConcat(Begin, t[..cut], t[cut..]);
    BadStaysBad(t[cut..]);
  }

  /** Block starts carry the indices 0, 1, 2, ... without a gap. */
  function StartIndices(trace: seq<OutEvent>): seq<nat> {
    if |trace| == 0 then []
    else (if trace[0].BlockStart? then [trace[0].index] else []) + StartIndices(trace[1..])
  }

  lemma {:induction false} StartsInOrder(p: Phase, trace: seq<OutEvent>)
    requires Parse(p, trace) == Done
    requires p.Idle? || p.Open? || p.Closing? || p.Done?
    ensures p.Idle? ==> forall i :: 0 <= i < |StartIndices(trace)| ==> StartIndices(trace)[i] == p.next + i
    ensures p.Open? ==> forall i :: 0 <= i < |StartIndices(trace)| ==> StartIndices(trace)[i] == p.index + 1 + i
    ensures p.Closing? || p.Done? ==> StartIndices(trace) == []
    decreases |trace|
  {
    if trace != [] {
      var q := Next(p, trace[0]);
      if q.Bad? {
        BadStaysBad(trace[1..]);
      } else {
        StartsInOrder(q, trace[1..]);
      }
    }
  }

  lemma BlockIndicesHaveNoGaps(trace: seq<OutEvent>)
    requires WellFormed(trace)
    ensures forall i :: 0 <= i < |StartIndices(trace)| ==> StartIndices(trace)[i] == i
  {
    if Next(Begin, trace[0]).Bad? {
      BadStaysBad(trace[1..]);
    } else {
      StartsInOrder(Idle(0), trace[1..]);
    }
  }

  // ----- the client -----

  datatype Block = Text(text: string) | Tool(id: string, name: string, input: string)

  /** A client's copy of the message, block by block under the indices it is told. */
  function Receive(blocks: seq<Block>, e: OutEvent): seq<Block> {
    match e
    case BlockStart(i, kind) =>
      if i != |blocks| then blocks
      else blocks + [if kind.TextBlock? then Text("") else Tool(kind.id, kind.name, "")]
    case TextDelta(i, text) =>
      if i < |blocks| && blocks[i].Text? then blocks[i := Text(blocks[i].text + text)] else blocks
    case InputDelta(i, json) =>
      if i < |blocks| && blocks[i].Tool? then blocks[i := blocks[i].(input := blocks[i].input + json)] else blocks
    case _ => blocks
  }

  function Decode(blocks: seq<Block>, trace: seq<OutEvent>): seq<Block>
    decreases |trace|
  {
    if |trace| == 0 then blocks else Decode(Receive(blocks, trace[0]), trace[1..])
  }

  function Concat(chunks: seq<string>): string {
    if |chunks| == 0 then "" else chunks[0] + Concat(chunks[1..])
  }

  function BlockOf(seg: Segment): Block {
    match seg
    case TextSeg(chunks) => Text(Concat(chunks))
    case ToolSeg(id, name, input) => Tool(id, name, input)
  }

  function BlocksOf(segs: seq<Segment>): seq<Block> {
    if |segs| == 0 then [] else [BlockOf(segs[0])] + BlocksOf(segs[1..])
  }

  lemma {:induction false} DecodeConcat(blocks: seq<Block>, a: seq<OutEvent>, b: seq<OutEvent>)
    ensures Decode(blocks, a + b) == Decode(Decode(blocks, a), b)
    decreases |a|
  {
    if a == [] {
      assert a + b == b;
    } else {
      assert (a + b)[1..] == a[1..] + b;
      DecodeConcat(Receive(blocks, a[0]), a[1..], b);
    }
  }

  lemma ReceiveDelta(before: seq<Block>, last: Block, text: string)
    ensures last.Text? ==>
              Receive(before + [last], TextDelta(|before|, text)) == before + [Text(last.text + text)]
    ensures last.Tool? ==>
              Receive(before + [last], InputDelta(|before|, text)) == before + [last.(input := last.input + text)]
  {
    assert forall b :: (before + [last])[|before| := b] == before + [b];
  }

  lemma DecodeStep(blocks: seq<Block>, e: OutEvent, rest: seq<OutEvent>)
    ensures Decode(blocks, [e] + rest) == Decode(Receive(blocks, e), rest)
  {
    assert ([e] + rest)[1..] == rest;
  }

  lemma {:induction false} DecodeDeltas(before: seq<Block>, text: string, chunks: seq<string>)
    ensures Decode(before + [Text(text)], Deltas(|before|, chunks)) == before + [Text(text + Concat(chunks))]
    decreases |chunks|
  {
    if chunks == [] {
      assert text + "" == text;
    } else {
      DecodeStep(before + [Text(text)], TextDelta(|before|, chunks[0]), Deltas(|before|, chunks[1..]));
      ReceiveDelta(before, Text(text), chunks[0]);
      DecodeDeltas(before, text + chunks[0], chunks[1..]);
      assert (text + chunks[0]) + Concat(chunks[1..]) == text + Concat(chunks);
    }
  }

  lemma DecodeText(before: seq<Block>, chunks: seq<string>)
    ensures Decode(before, RenderOne(TextSeg(chunks), |before|)) == before + [Text(Concat(chunks))]
  {
    var n := |before|;
    var deltas, stop := Deltas(n, chunks), [BlockStop(n)];
    assert RenderOne(TextSeg(chunks), n) == [BlockStart(n, TextBlock)] + (deltas + stop);
    DecodeStep(before, BlockStart(n, TextBlock), deltas + stop);
    DecodeConcat(before + [Text("")], deltas, stop);
    DecodeDeltas(before, "", chunks);
    assert "" + Concat(chunks) == Concat(chunks);
    DecodeStep(before + [Text(Concat(chunks))], BlockStop(n), []);
    assert stop == [BlockStop(n)] + [];
  }

  lemma DecodeThree(blocks: seq<Block>, a: OutEvent, b: OutEvent, c: OutEvent)
    ensures Decode(blocks, [a, b, c]) == Receive(Receive(Receive(blocks, a), b), c)
  {
    assert [a, b, c] == [a] + [b, c] && [b, c] == [b] + [c] && [c] == [c] + [];
    DecodeStep(blocks, a, [b, c]);
    DecodeStep(Receive(blocks, a), b, [c]);
    DecodeStep(Receive(Receive(blocks, a), b), c, []);
  }

  lemma DecodeTool(before: seq<Block>, id: string, name: string, input: string)
    ensures Decode(before, ToolEvents(|before|, id, name, input)) == before + [Tool(id, name, input)]
  {
    var n := |before|;
    var start, delta, stop := BlockStart(n, ToolUse(id, name)), InputDelta(n, input), BlockStop(n);
    var started := before + [Tool(id, name, "")];
    DecodeThree(before, start, delta, stop);
    assert Receive(before, start) == started;
    ReceiveDelta(before, Tool(id, name, ""), input);
    assert "" + input == input;
    assert Receive(started, delta) == before + [Tool(id, name, input)];
  }

  lemma {:induction false} DecodeRender(before: seq<Block>, segs: seq<Segment>)
    ensures Decode(before, Render(segs, |before|)) == before + BlocksOf(segs)
    decreases |segs|
  {
    if segs == [] {
      assert before + [] == before;
    } else {
      var first := BlockOf(segs[0]);
      DecodeConcat(before, RenderOne(segs[0], |before|), Render(segs[1..], |before| + 1));
      match segs[0] {
        case TextSeg(chunks) => DecodeText(before, chunks);
        case ToolSeg(id, name, input) => DecodeTool(before, id, name, input);
      }
      DecodeRender(before + [first], segs[1..]);
      Associative(before, [first], BlocksOf(segs[1..]));
    }
  }

  // ----- the round trip -----

  /** All the text sent upstream. */
  function TextOf(events: seq<UpEvent>): string {
    if |events| == 0 then ""
    else (if events[0].Content? then events[0].text else "") + TextOf(events[1..])
  }

  /** One tool call per start event, with the fragments up to the next flush point. */
  function ToolsOf(events: seq<UpEvent>): seq<Block> {
    if |events| == 0 then []
    else if StartsTool(events[0]) then
      [Tool(events[0].id, events[0].name, InputOf(ArgsAfter(events[1..])))] + ToolsOf(events[1..])
    else ToolsOf(events[1..])
  }

  function AllText(blocks: seq<Block>): string {
    if |blocks| == 0 then "" else (if blocks[0].Text? then blocks[0].text else "") + AllText(blocks[1..])
  }

  function AllTools(blocks: seq<Block>): (tools: seq<Block>)
    ensures forall i :: 0 <= i < |tools| ==> tools[i].Tool?
  {
    if |blocks| == 0 then [] else (if blocks[0].Tool? then [blocks[0]] else []) + AllTools(blocks[1..])
  }

  lemma JoinBlocks(text: string, segs: seq<Segment>)
    ensures AllText(BlocksOf(Join(text, segs))) == text + AllText(BlocksOf(segs))
    ensures AllTools(BlocksOf(Join(text, segs))) == AllTools(BlocksOf(segs))
  {
    var joined := Join(text, segs);
    var head := joined[0].chunks;
    assert BlocksOf(joined) == [Text(Concat(head))] + BlocksOf(joined[1..]);
    assert AllText(BlocksOf(joined)) == Concat(head) + AllText(BlocksOf(joined[1..]));
    if |segs| > 0 && segs[0].TextSeg? {
      assert head[1..] == segs[0].chunks;
      assert Concat(head) == text + Concat(segs[0].chunks);
    } else {
      assert head[1..] == [];
      assert Concat(head) == text + "" == text;
    }
  }

  lemma {:induction false} SegmentsKeepAll(events: seq<UpEvent>)
    ensures AllText(BlocksOf(Segments(events))) == TextOf(events)
    ensures AllTools(BlocksOf(Segments(events))) == ToolsOf(events)
  {
    if events != [] {
      var e, rest := events[0], Segments(events[1..]);
      SegmentsKeepAll(events[1..]);
      if e.Content? && e.text != "" {
        JoinBlocks(e.text, rest);
      } else if StartsTool(e) {
        assert BlocksOf(Segments(events))[1..] == BlocksOf(rest);
      }
    }
  }

  /**
   The round trip.  A client that folds the stream gets back all the text, and one tool call per
   start event, in arrival order, each with its trimmed arguments.
   */
  lemma ClientRebuildsMessage(events: seq<UpEvent>)
    ensures Decode([], Trace(events)) == BlocksOf(Segments(events))
    ensures AllText(Decode([], Trace(events))) == TextOf(events)
    ensures AllTools(Decode([], Trace(events))) == ToolsOf(events)
  {
    var segs := Segments(events);
    var start, body, end := [MessageStart], Render(segs, 0), [MessageDelta(StopReason(events)), MessageStop];
    DecodeConcat([], start + body, end);
    DecodeConcat([], start, body);
    assert start[1..] == [] && end[1..] == [MessageStop] && end[1..][1..] == [];
    assert Decode([], start) == Decode([], []);
    DecodeRender([], segs);
    assert [] + BlocksOf(segs) == BlocksOf(segs);
    assert Decode(BlocksOf(segs), end) == Decode(BlocksOf(segs), end[1..]) == Decode(BlocksOf(segs), []);
    SegmentsKeepAll(events);
  }

  lemma {:induction false} ToolIffStarted(events: seq<UpEvent>)
    ensures HasTool(Segments(events)) <==> exists i :: 0 <= i < |events| && StartsTool(events[i])
  {
    if events != [] {
      var e, rest, segs := events[0], Segments(events[1..]), Segments(events);
      ToolIffStarted(events[1..]);
      if i :| 0 <= i < |rest| && rest[i].ToolSeg? {
        assert segs[if |segs| == |rest| then i else i + 1].ToolSeg?;
        var j :| 0 <= j < |events| - 1 && StartsTool(events[1..][j]);
        assert StartsTool(events[j + 1]);
      } else if StartsTool(e) {
        assert segs[0].ToolSeg?;
      } else {
        assert forall i :: 1 <= i < |events| ==> events[i] == events[1..][i - 1];
        forall i | 0 <= i < |segs| ensures !segs[i].ToolSeg? {
          if e.Content? && e.text != "" && i > 0 {
            assert segs[i] == rest[if |segs| == |rest| then i else i - 1];
          }
        }
      }
    }
  }

  /** With no upstream reason, the stop reason is tool_use exactly when a tool call was started. */
  lemma StopReasonWithoutUpstreamReason(events: seq<UpEvent>)
    requires LastReason(events) == ""
    ensures StopReason(events) == STOP_TOOL_USE <==> exists i :: 0 <= i < |events| && StartsTool(events[i])
  {
    ToolIffStarted(events);
  }
}
