/**
 The Anthropic stream writer.  A tool's block index is taken when the tool call starts, its
 events are sent later, from whichever flush point comes first; a text block is closed only when
 a tool block needs to be sent.  `Owed` is what the writer still has to send for the events to
 come, read off the declarative segments; every method moves events from what is owed to what
 has been sent.
 */
module AnthropicStream {
  import opened Collections
  import opened Text
  import opened Wrappers
  import opened AnthropicProtocol
  import StreamLines

  class AnthropicStreamWriter {
    /** How many whole events the connection takes before writing to it fails, and whether it then still takes the
        name line of one more: an event is two writes. */
    const limit: nat
    const half: bool
    var out: seq<OutEvent>
    /** The event whose name line went out and whose payload did not. */
    var torn: Option<OutEvent>

    var textBlockOpen: bool
    var textBlockIndex: nat
    var nextBlockIndex: nat
    var stopReason: string
    var hasContent: bool

    var toolId: string
    var toolName: string
    var toolArgs: string
    var toolStarted: bool
    var toolStopped: bool
    var toolIndex: nat

    ghost predicate Fresh()
      reads this
    {
      && |out| == 0 && torn.None? && !textBlockOpen && nextBlockIndex == 0
      && toolId == "" && stopReason == "" && !toolStarted && !hasContent
    }

    constructor (writes: nat)
      ensures limit == writes / 2 && half == (writes % 2 == 1) && Fresh()
    {
      limit, half := writes / 2, writes % 2 == 1;
      out, torn := [], None;
      textBlockOpen, textBlockIndex, nextBlockIndex := false, 0, 0;
      stopReason, hasContent := "", false;
      toolId, toolName, toolArgs, toolStarted, toolStopped, toolIndex := "", "", "", false, false, 0;
    }

    ghost predicate Intact()
      reads this
    {
      |out| <= limit && torn.None?
    }

    /** Writing `e` failed: nothing of it went out, or its name line. */
    ghost predicate BrokeAt(e: OutEvent)
      reads this
    {
      |out| == limit && torn == if half then Some(e) else None
    }

    /** Between events: a tool call that is pending has a name, and none of it has been sent. */
    ghost predicate Ready()
      reads this
    {
      Intact() && (toolId != "" ==> toolName != "" && !toolStarted && !toolStopped)
    }

    /** Writing failed: what has been sent is `whole` up to the limit. */
    ghost predicate CutOff(whole: seq<OutEvent>)
      reads this
    {
      limit < |whole| && out == whole[..limit] && BrokeAt(whole[limit])
    }

    lemma CutOffLonger(whole: seq<OutEvent>, more: seq<OutEvent>)
      requires CutOff(whole)
      ensures CutOff(whole + more)
    {}

    lemma CutOffAt(e: OutEvent, more: seq<OutEvent>)
      requires BrokeAt(e)
      ensures CutOff(out + [e] + more)
    {}

    // ----- what is owed -----

    /** Closing the text block and sending the pending tool call. */
    ghost function FlushOwed(args: string): seq<OutEvent>
      reads this
    {
      (if textBlockOpen then [BlockStop(textBlockIndex)] else [])
      + ToolEvents(toolIndex, toolId, toolName, InputOf(args))
    }

    /** With no tool call pending: an open text block goes on as long as text comes first. */
    static ghost function RenderFrom(open: bool, index: nat, next: nat, segs: seq<Segment>): seq<OutEvent> {
      if !open then Render(segs, next)
      else if |segs| > 0 && segs[0].TextSeg? then
        Deltas(index, segs[0].chunks) + ([BlockStop(index)] + Render(segs[1..], next))
      else [BlockStop(index)] + Render(segs, next)
    }

    /** The block events still to be sent. */
    ghost function BlocksOwed(rest: seq<UpEvent>): seq<OutEvent>
      reads this
    {
      if toolId != "" then FlushOwed(toolArgs + ArgsAfter(rest)) + Render(Segments(rest), nextBlockIndex)
      else RenderFrom(textBlockOpen, textBlockIndex, nextBlockIndex, Segments(rest))
    }

    ghost function ReasonOwed(rest: seq<UpEvent>): string
      reads this
    {
      if LastReason(rest) != "" then MapFinishReason(LastReason(rest))
      else if stopReason != "" then stopReason
      else if toolStarted || toolId != "" || HasTool(Segments(rest)) then STOP_TOOL_USE
      else STOP_END_TURN
    }

    ghost predicate AnyOwed(rest: seq<UpEvent>)
      reads this
    {
      hasContent || toolStarted || toolId != "" || Segments(rest) != []
    }

    /** Text for an open block is one more delta. */
    static lemma RenderOpenJoin(index: nat, next: nat, text: string, segs: seq<Segment>)
      ensures RenderFrom(true, index, next, Join(text, segs)) == [TextDelta(index, text)] + RenderFrom(true, index, next, segs)
    {
      var j := Join(text, segs);
      var chunks := j[0].chunks;
      var tail := [BlockStop(index)] + Render(j[1..], next);
      assert RenderFrom(true, index, next, j) == [TextDelta(index, text)] + (Deltas(index, chunks[1..]) + tail);
      if |segs| > 0 && segs[0].TextSeg? {
        assert chunks[1..] == segs[0].chunks && j[1..] == segs[1..];
      } else {
        assert chunks[1..] == [] && j[1..] == segs;
        assert Deltas(index, []) + tail == tail;
      }
    }

    /** Text with no open block starts one. */
    static lemma RenderClosedJoin(index: nat, next: nat, text: string, segs: seq<Segment>)
      ensures RenderFrom(false, index, next, Join(text, segs)) ==
              [BlockStart(next, TextBlock)] + RenderFrom(true, next, next + 1, Join(text, segs))
    {
      var j := Join(text, segs);
      var start, stop := [BlockStart(next, TextBlock)], [BlockStop(next)];
      var deltas, tail := Deltas(next, j[0].chunks), Render(j[1..], next + 1);
      assert (start + deltas + stop) + tail == start + (deltas + (stop + tail));
    }

    /** The block that text goes to, the index after it, and the event that opens it. */
    ghost function TextIndex(): nat
      reads this
    {
      if textBlockOpen then textBlockIndex else nextBlockIndex
    }

    ghost function IndexAfterText(): nat
      reads this
    {
      if textBlockOpen then nextBlockIndex else nextBlockIndex + 1
    }

    ghost function Opening(): seq<OutEvent>
      reads this
    {
      if textBlockOpen then [] else [BlockStart(nextBlockIndex, TextBlock)]
    }

    lemma OpeningOwed(text: string, segs: seq<Segment>)
      ensures RenderFrom(textBlockOpen, textBlockIndex, nextBlockIndex, Join(text, segs)) ==
              Opening() + RenderFrom(true, TextIndex(), IndexAfterText(), Join(text, segs))
    {
      if textBlockOpen {
        assert Opening() == [];
      } else {
        RenderClosedJoin(textBlockIndex, nextBlockIndex, text, segs);
      }
    }

    // ----- writing -----

    method WriteEvent(e: OutEvent) returns (ok: bool)
      requires Intact()
      modifies this`out, this`torn
      ensures ok ==> out == old(out) + [e] && Intact()
      ensures !ok ==> out == old(out) && BrokeAt(e)
    {
      ok := |out| < limit || half;
      if !ok { return; }
      torn := Some(e);
      ok := |out| < limit;
      if !ok { return; }
      out, torn := out + [e], None;
    }

    method StartTextBlock() returns (ok: bool)
      requires Ready()
      modifies this`out, this`torn, this`textBlockOpen, this`textBlockIndex, this`nextBlockIndex
      ensures ok && old(textBlockOpen) ==>
                out == old(out) && torn.None? && textBlockOpen && textBlockIndex == old(textBlockIndex) && nextBlockIndex == old(nextBlockIndex)
      ensures ok && !old(textBlockOpen) ==>
                && out == old(out) + [BlockStart(textBlockIndex, TextBlock)] && Intact()
                && textBlockOpen && textBlockIndex == old(nextBlockIndex) && nextBlockIndex == old(nextBlockIndex) + 1
      ensures !ok ==> out == old(out) && BrokeAt(BlockStart(textBlockIndex, TextBlock)) && !old(textBlockOpen)
      ensures !ok ==> textBlockIndex == old(nextBlockIndex)
    {
      if textBlockOpen {
        return true;
      }
      textBlockIndex := nextBlockIndex;
      nextBlockIndex := nextBlockIndex + 1;
      ok := WriteEvent(BlockStart(textBlockIndex, TextBlock));
      if ok {
        textBlockOpen := true;
      }
    }

    method CloseTextBlock() returns (ok: bool)
      requires Intact()
      modifies this`out, this`torn, this`textBlockOpen
      ensures ok ==> !textBlockOpen && Intact()
      ensures ok ==> out == old(out) + if old(textBlockOpen) then [BlockStop(textBlockIndex)] else []
      ensures !ok ==> out == old(out) && BrokeAt(BlockStop(textBlockIndex)) && old(textBlockOpen)
    {
      if !textBlockOpen {
        return true;
      }
      ok := WriteEvent(BlockStop(textBlockIndex));
      if ok {
        textBlockOpen := false;
      }
    }

    method StartToolBlock() returns (ok: bool)
      requires Intact()
      modifies this`out, this`torn, this`toolStarted
      ensures var skip := old(toolStarted) || toolId == "" || toolName == "";
              && (ok ==> out == old(out) + if skip then [] else [BlockStart(toolIndex, ToolUse(toolId, toolName))])
              && (ok ==> Intact() && toolStarted == (old(toolStarted) || !skip))
              && (!ok ==> out == old(out) && BrokeAt(BlockStart(toolIndex, ToolUse(toolId, toolName))) && !skip)
    {
      if toolStarted || toolId == "" || toolName == "" {
        return true;
      }
      ok := WriteEvent(BlockStart(toolIndex, ToolUse(toolId, toolName)));
      if ok {
        toolStarted := true;
      }
    }

    method SendToolInputDelta() returns (ok: bool)
      requires Intact()
      modifies this`out, this`torn
      ensures ok ==> Intact() && out == old(out) + if toolStarted then [InputDelta(toolIndex, InputOf(toolArgs))] else []
      ensures !ok ==> out == old(out) && BrokeAt(InputDelta(toolIndex, InputOf(toolArgs))) && toolStarted
    {
      if !toolStarted {
        return true;
      }
      var inputJSON := TrimSpace(toolArgs);
      if inputJSON == "" {
        inputJSON := "{}";
      }
      ok := WriteEvent(InputDelta(toolIndex, inputJSON));
    }

    method StopToolBlock() returns (ok: bool)
      requires Intact()
      modifies this`out, this`torn, this`toolStopped
      ensures var skip := !toolStarted || old(toolStopped);
              && (ok ==> out == old(out) + if skip then [] else [BlockStop(toolIndex)])
              && (ok ==> Intact() && toolStopped == (old(toolStopped) || !skip))
              && (!ok ==> out == old(out) && BrokeAt(BlockStop(toolIndex)) && !skip)
    {
      if !toolStarted || toolStopped {
        return true;
      }
      ok := WriteEvent(BlockStop(toolIndex));
      if ok {
        toolStopped := true;
      }
    }

    /** The three events of the pending tool call. */
    method SendTool() returns (ok: bool)
      requires Intact() && toolId != "" && toolName != "" && !toolStarted && !toolStopped
      modifies this`out, this`torn, this`toolStarted, this`toolStopped
      ensures ok ==> Intact() && toolStarted && out == old(out) + ToolEvents(toolIndex, toolId, toolName, InputOf(toolArgs))
      ensures !ok ==> CutOff(old(out) + ToolEvents(toolIndex, toolId, toolName, InputOf(toolArgs)))
    {
      ok := StartToolBlock();
      if !ok { return; }
      ok := SendToolInputDelta();
      if !ok { return; }
      ok := StopToolBlock();
    }

    /** Sends the pending tool call, if there is one, closing the text block first. */
    method FlushCurrentTool() returns (ok: bool)
      requires Ready()
      modifies this`out, this`torn, this`textBlockOpen, this`toolId, this`toolStarted, this`toolStopped
      ensures ok ==> Ready() && toolId == "" && toolStarted == (old(toolStarted) || old(toolId) != "")
      ensures ok && old(toolId) == "" ==> out == old(out) && textBlockOpen == old(textBlockOpen)
      ensures ok && old(toolId) != "" ==> out == old(out + FlushOwed(toolArgs)) && !textBlockOpen
      ensures !ok ==> old(toolId) != "" && CutOff(old(out + FlushOwed(toolArgs)))
    {
      if toolId == "" {
        return true;
      }
      ok := CloseTextBlock();
      if !ok { return; }
      ok := SendTool();
      if !ok { return; }
      toolId := "";
    }

    /** At a flush point, flushing sends what was owed first and no more. */
    method Flush(ghost coming: seq<UpEvent>) returns (ok: bool)
      requires Ready() && ArgsAfter(coming) == ""
      modifies this`out, this`torn, this`textBlockOpen, this`toolId, this`toolStarted, this`toolStopped
      ensures ok ==> Ready() && toolId == "" && toolStarted == (old(toolStarted) || old(toolId) != "")
      ensures ok ==> out + BlocksOwed(coming) == old(out + BlocksOwed(coming))
      ensures ok ==> ReasonOwed(coming) == old(ReasonOwed(coming)) && AnyOwed(coming) == old(AnyOwed(coming))
      ensures !ok ==> CutOff(old(out + BlocksOwed(coming)))
    {
      assert toolArgs + "" == toolArgs;
      ghost var now, later := out + FlushOwed(toolArgs), Render(Segments(coming), nextBlockIndex);
      Associative(out, FlushOwed(toolArgs), later);
      ok := FlushCurrentTool();
      if !ok {
        CutOffLonger(now, later);
      }
    }

    method ResetTool(id: string, name: string)
      modifies this`toolId, this`toolName, this`toolIndex, this`nextBlockIndex, this`toolArgs, this`toolStarted, this`toolStopped
      ensures toolId == id && toolName == name && toolIndex == old(nextBlockIndex) && nextBlockIndex == old(nextBlockIndex) + 1
      ensures toolArgs == "" && !toolStarted && !toolStopped
    {
      toolId, toolName := id, name;
      toolIndex := nextBlockIndex;
      nextBlockIndex := nextBlockIndex + 1;
      toolArgs := "";
      toolStarted, toolStopped := false, false;
    }

    method AppendToolArgs(delta: string)
      modifies this`toolArgs
      ensures toolArgs == old(toolArgs) + delta
    {
      if delta == "" {
        return;
      }
      toolArgs := toolArgs + delta;
    }

    // ----- one upstream event -----
    // Whatever events follow, handling one keeps the sum of what is sent and what is owed.

    /** Opens a text block if there is none; `owed` is what comes after. */
    method OpenText(ghost owed: seq<OutEvent>) returns (ok: bool)
      requires Ready() && toolId == ""
      modifies this`out, this`torn, this`textBlockOpen, this`textBlockIndex, this`nextBlockIndex
      ensures ok ==> Ready() && textBlockOpen
      ensures ok ==> textBlockIndex == old(TextIndex()) && nextBlockIndex == old(IndexAfterText())
      ensures var whole := old(out + Opening()) + owed;
              if ok then out + owed == whole else CutOff(whole)
    {
      ok := StartTextBlock();
      if !ok {
        CutOffAt(BlockStart(textBlockIndex, TextBlock), owed);
      }
    }

    method SendText(text: string, ghost segs: seq<Segment>) returns (ok: bool)
      requires Ready() && toolId == ""
      modifies this`out, this`torn, this`textBlockOpen, this`textBlockIndex, this`nextBlockIndex, this`hasContent
      ensures ok ==> Ready() && hasContent
      ensures var whole := old(out + RenderFrom(textBlockOpen, textBlockIndex, nextBlockIndex, Join(text, segs)));
              && (ok ==> out + RenderFrom(textBlockOpen, textBlockIndex, nextBlockIndex, segs) == whole)
              && (!ok ==> CutOff(whole))
    {
      OpeningOwed(text, segs);
      Associative(out, Opening(), RenderFrom(true, TextIndex(), IndexAfterText(), Join(text, segs)));
      ok := OpenText(RenderFrom(true, TextIndex(), IndexAfterText(), Join(text, segs)));
      if !ok { return; }
      RenderOpenJoin(textBlockIndex, nextBlockIndex, text, segs);
      ghost var before, delta := out, [TextDelta(textBlockIndex, text)];
      ghost var owed := RenderFrom(true, textBlockIndex, nextBlockIndex, segs);
      assert before + (delta + owed) == (before + delta) + owed;
      hasContent := true;
      ok := WriteEvent(TextDelta(textBlockIndex, text));
    }

    static lemma JoinHasTool(text: string, segs: seq<Segment>)
      ensures HasTool(Join(text, segs)) == HasTool(segs)
    {
      var j := Join(text, segs);
      if HasTool(segs) {
        var i :| 0 <= i < |segs| && segs[i].ToolSeg?;
        assert j[if |j| == |segs| then i else i + 1].ToolSeg?;
      }
      if HasTool(j) {
        var i :| 0 <= i < |j| && j[i].ToolSeg?;
        assert segs[if |j| == |segs| then i else i - 1].ToolSeg?;
      }
    }

    /** Text is a flush point; unless blank it is put before what follows. */
    static lemma ContentSegments(text: string, rest: seq<UpEvent>)
      ensures var all := [Content(text)] + rest;
              && Segments(all) == (if text == "" then Segments(rest) else Join(text, Segments(rest)))
              && HasTool(Segments(all)) == HasTool(Segments(rest)) && (text != "" ==> |Segments(all)| > 0)
              && ArgsAfter(all) == "" && LastReason(all) == LastReason(rest)
    {
      var all := [Content(text)] + rest;
      assert all[1..] == rest;
      JoinHasTool(text, Segments(rest));
    }

    method HandleContent(text: string, ghost rest: seq<UpEvent>) returns (ok: bool)
      requires Ready()
      modifies this
      ensures ok ==> Ready() && out + BlocksOwed(rest) == old(out + BlocksOwed([Content(text)] + rest))
      ensures ok ==> ReasonOwed(rest) == old(ReasonOwed([Content(text)] + rest))
      ensures ok ==> AnyOwed(rest) == old(AnyOwed([Content(text)] + rest))
      ensures !ok ==> CutOff(old(out + BlocksOwed([Content(text)] + rest)))
    {
      ghost var all := [Content(text)] + rest;
      ContentSegments(text, rest);
      if toolId != "" && !toolStopped {
        ok := Flush(all);
        if !ok { return; }
      }
      if text == "" {
        return true;
      }
      ok := SendText(text, Segments(rest));
    }

    /** The start of a tool call is a flush point and the block it starts comes first. */
    static lemma StartSegments(id: string, name: string, args: Option<string>, rest: seq<UpEvent>)
      requires id != "" && name != ""
      ensures var all := [ToolCall(id, name, args)] + rest;
              && Segments(all) == [ToolSeg(id, name, InputOf(ArgsAfter(rest)))] + Segments(rest)
              && HasTool(Segments(all)) && ArgsAfter(all) == "" && LastReason(all) == LastReason(rest)
    {
      var all := [ToolCall(id, name, args)] + rest;
      assert all[1..] == rest;
      assert Segments(all)[0].ToolSeg?;
    }

    /** A tool call about to start is owed under the next block index. */
    lemma StartOwed(id: string, name: string, args: Option<string>, rest: seq<UpEvent>)
      requires toolId == "" && id != "" && name != ""
      ensures BlocksOwed([ToolCall(id, name, args)] + rest) ==
              (if textBlockOpen then [BlockStop(textBlockIndex)] else [])
              + ToolEvents(nextBlockIndex, id, name, InputOf(ArgsAfter(rest))) + Render(Segments(rest), nextBlockIndex + 1)
    {
      StartSegments(id, name, args, rest);
      assert Segments([ToolCall(id, name, args)] + rest)[1..] == Segments(rest);
    }

    method HandleToolStart(id: string, name: string, ghost args: Option<string>, ghost rest: seq<UpEvent>) returns (ok: bool)
      requires Ready() && id != "" && name != ""
      modifies this
      ensures ok ==> Ready() && out + BlocksOwed(rest) == old(out + BlocksOwed([ToolCall(id, name, args)] + rest))
      ensures ok ==> ReasonOwed(rest) == old(ReasonOwed([ToolCall(id, name, args)] + rest))
      ensures ok ==> AnyOwed(rest) == old(AnyOwed([ToolCall(id, name, args)] + rest))
      ensures !ok ==> CutOff(old(out + BlocksOwed([ToolCall(id, name, args)] + rest)))
    {
      StartSegments(id, name, args, rest);
      ok := Flush([ToolCall(id, name, args)] + rest);
      if !ok { return; }
      StartOwed(id, name, args, rest);
      ResetTool(id, name);
      assert "" + ArgsAfter(rest) == ArgsAfter(rest);
    }

    method HandleToolCall(id: string, name: string, args: Option<string>, ghost rest: seq<UpEvent>) returns (ok: bool)
      requires Ready()
      modifies this
      ensures ok ==> Ready() && out + BlocksOwed(rest) == old(out + BlocksOwed([ToolCall(id, name, args)] + rest))
      ensures ok ==> ReasonOwed(rest) == old(ReasonOwed([ToolCall(id, name, args)] + rest))
      ensures ok ==> AnyOwed(rest) == old(AnyOwed([ToolCall(id, name, args)] + rest))
      ensures !ok ==> CutOff(old(out + BlocksOwed([ToolCall(id, name, args)] + rest)))
    {
      ghost var all := [ToolCall(id, name, args)] + rest;
      assert all[1..] == rest;
      if id != "" {
        if name != "" {
          ok := HandleToolStart(id, name, args, rest);
          return;
        }
        assert "" + ArgsAfter(rest) == ArgsAfter(rest);
      } else {
        assert (toolArgs + Given(args)) + ArgsAfter(rest) == toolArgs + ArgsAfter(all);
        assert toolArgs + "" == toolArgs;
        if args.Some? {
          AppendToolArgs(args.value);
        }
      }
      return true;
    }

    method HandleFinish(reason: Option<string>, ghost rest: seq<UpEvent>) returns (ok: bool)
      requires Ready()
      modifies this
      ensures ok ==> Ready() && out + BlocksOwed(rest) == old(out + BlocksOwed([FinishMetadata(reason)] + rest))
      ensures ok ==> ReasonOwed(rest) == old(ReasonOwed([FinishMetadata(reason)] + rest))
      ensures ok ==> AnyOwed(rest) == old(AnyOwed([FinishMetadata(reason)] + rest))
      ensures !ok ==> CutOff(old(out + BlocksOwed([FinishMetadata(reason)] + rest)))
    {
      ghost var all := [FinishMetadata(reason)] + rest;
      assert all[1..] == rest;
      if reason.Some? && reason.value != "" {
        stopReason := MapFinishReason(reason.value);
      }
      ok := Flush(all);
    }

    /** The callback for one upstream event. */
    method HandleEvent(e: UpEvent, ghost rest: seq<UpEvent>) returns (ok: bool)
      requires Ready()
      modifies this
      ensures ok ==> Ready() && out + BlocksOwed(rest) == old(out + BlocksOwed([e] + rest))
      ensures ok ==> ReasonOwed(rest) == old(ReasonOwed([e] + rest))
      ensures ok ==> AnyOwed(rest) == old(AnyOwed([e] + rest))
      ensures !ok ==> CutOff(old(out + BlocksOwed([e] + rest)))
    {
      match e {
        case Content(text) => ok := HandleContent(text, rest);
        case ToolCall(id, name, args) => ok := HandleToolCall(id, name, args, rest);
        case FinishMetadata(reason) => ok := HandleFinish(reason, rest);
        case Other =>
          assert ([e] + rest)[1..] == rest;
          assert "" + ArgsAfter(rest) == ArgsAfter(rest);
          ok := true;
      }
    }

    function EndReason(): string
      reads this
    {
      if stopReason != "" then stopReason else if toolStarted then STOP_TOOL_USE else STOP_END_TURN
    }

    /** With no event to come and no tool call pending, only an open text block and the stop reason are owed. */
    lemma NothingOwed(rest: seq<UpEvent>)
      requires toolId == "" && |rest| == 0
      ensures BlocksOwed(rest) == (if textBlockOpen then [BlockStop(textBlockIndex)] else [])
      ensures ReasonOwed(rest) == EndReason() && AnyOwed(rest) == (hasContent || toolStarted)
    {}

    method SendEnd() returns (ok: bool)
      requires Intact()
      modifies this`out, this`torn, this`textBlockOpen, this`stopReason
      ensures var closing := old(if textBlockOpen then [BlockStop(textBlockIndex)] else []);
              var whole := old(out) + closing + [MessageDelta(old(EndReason())), MessageStop];
              if ok then Intact() && out == whole else CutOff(whole)
    {
      ok := CloseTextBlock();
      if !ok { return; }
      if stopReason == "" {
        if toolStarted {
          stopReason := STOP_TOOL_USE;
        } else {
          stopReason := STOP_END_TURN;
        }
      }
      ok := WriteEvent(MessageDelta(stopReason));
      if !ok { return; }
      ok := WriteEvent(MessageStop);
    }

    /** After the last event: the pending tool call, the open text block, the stop reason. */
    method Finish(ghost rest: seq<UpEvent>) returns (ok: bool)
      requires Ready() && |rest| == 0
      modifies this
      ensures var whole := old(out + BlocksOwed(rest) + [MessageDelta(ReasonOwed(rest)), MessageStop]);
              if ok then Intact() && out == whole else CutOff(whole)
      ensures ok ==> (hasContent || toolStarted) == old(AnyOwed(rest))
    {
      ghost var end := [MessageDelta(ReasonOwed(rest)), MessageStop];
      ok := Flush(rest);
      if !ok {
        CutOffLonger(old(out + BlocksOwed(rest)), end);
        return;
      }
      NothingOwed(rest);
      ok := SendEnd();
    }

    /** The callback over all upstream events. */
    method HandleEvents(events: seq<UpEvent>) returns (ok: bool, ghost rest: seq<UpEvent>)
      requires Ready()
      modifies this
      ensures ok ==> |rest| == 0 && Ready() && out + BlocksOwed(rest) == old(out + BlocksOwed(events))
      ensures ok ==> ReasonOwed(rest) == old(ReasonOwed(events)) && AnyOwed(rest) == old(AnyOwed(events))
      ensures !ok ==> CutOff(old(out + BlocksOwed(events)))
    {
      rest := events;
      for i := 0 to |events|
        invariant Ready()
        invariant rest == events[i..] && out + BlocksOwed(rest) == old(out + BlocksOwed(events))
        invariant ReasonOwed(rest) == old(ReasonOwed(events)) && AnyOwed(rest) == old(AnyOwed(events))
      {
        assert rest == [events[i]] + events[i + 1..];
        rest := events[i + 1..];
        ok := HandleEvent(events[i], rest);
        if !ok { return; }
      }
      ok := true;
    }

    /** The callback for the event of one line, if it carries one; `more` says whether to read on. */
    method HandleLine(raw: string, parse: string -> Option<UpEvent>, ghost marks: seq<StreamLines.Line>, ghost i: nat)
      returns (ok: bool, more: bool, ghost rest: seq<UpEvent>)
      requires Ready() && i < |marks| && marks[i] == StreamLines.Classify(raw)
      modifies this
      ensures ok ==> if more then rest == StreamLines.EventsOf(marks[i + 1..], parse) else |rest| == 0
      ensures ok ==> Ready() && out + BlocksOwed(rest) == old(out + BlocksOwed(StreamLines.EventsOf(marks[i..], parse)))
      ensures ok ==> ReasonOwed(rest) == old(ReasonOwed(StreamLines.EventsOf(marks[i..], parse)))
      ensures ok ==> AnyOwed(rest) == old(AnyOwed(StreamLines.EventsOf(marks[i..], parse)))
      ensures !ok ==> CutOff(old(out + BlocksOwed(StreamLines.EventsOf(marks[i..], parse))))
    {
      StreamLines.NextEvents(marks, i, parse);
      var line := StreamLines.Classify(raw);
      if line.Stop? {
        return true, false, StreamLines.EventsOf(marks[i..], parse);
      }
      rest := StreamLines.EventsOf(marks[i + 1..], parse);
      var heard := StreamLines.Heard(line, parse);
      if |heard| == 0 {
        assert heard + rest == rest;
        return true, true, rest;
      }
      assert heard == [heard[0]];
      ok := HandleEvent(heard[0], rest);
      more := true;
    }

    /** The line loop with this writer as its callback: a write error ends it, and so does a cancellation, seen once
        `cancelAt` lines were read; a read error shows as the end of the lines. */
    method HandleLines(lines: seq<string>, parse: string -> Option<UpEvent>, cancelAt: nat) returns (ok: bool, ghost rest: seq<UpEvent>)
      requires Ready()
      modifies this
      ensures var events := StreamLines.Events(StreamLines.Take(lines, cancelAt), parse);
              && (ok ==> |rest| == 0 && Ready() && out + BlocksOwed(rest) == old(out + BlocksOwed(events)))
              && (ok ==> ReasonOwed(rest) == old(ReasonOwed(events)) && AnyOwed(rest) == old(AnyOwed(events)))
              && (!ok ==> CutOff(old(out + BlocksOwed(events))))
    {
      StreamLines.ClassifiedPrefix(lines, cancelAt);
      ghost var marks := StreamLines.Take(StreamLines.Classified(lines), cancelAt);
      ghost var events := StreamLines.EventsOf(marks, parse);
      assert marks[0..] == marks;
      rest := events;
      var i, more := 0, true;
      while more && i < |lines| && i < cancelAt
        invariant i <= |marks| && Ready()
        invariant if more then rest == StreamLines.EventsOf(marks[i..], parse) else |rest| == 0
        invariant out + BlocksOwed(rest) == old(out + BlocksOwed(events))
        invariant ReasonOwed(rest) == old(ReasonOwed(events)) && AnyOwed(rest) == old(AnyOwed(events))
        decreases |lines| - i
      {
        ok, more, rest := HandleLine(lines[i], parse, marks, i);
        if !ok { return; }
        i := i + 1;
      }
      StreamLines.NextEvents(marks, i, parse);
      ok := true;
    }

    /** What a fresh writer owes is the whole answer after `message_start`. */
    lemma FreshOwes(events: seq<UpEvent>)
      requires Fresh()
      ensures Trace(events) == [MessageStart] + BlocksOwed(events) + [MessageDelta(ReasonOwed(events)), MessageStop]
      ensures AnyOwed(events) == (Segments(events) != [])
    {}

    method Begin(ghost events: seq<UpEvent>) returns (ok: bool)
      requires Fresh()
      modifies this`out, this`torn
      ensures ok ==> Ready() && out + BlocksOwed(events) == [MessageStart] + old(BlocksOwed(events))
      ensures ok ==> ReasonOwed(events) == old(ReasonOwed(events)) && AnyOwed(events) == old(AnyOwed(events))
      ensures !ok ==> |out| == 0 && BrokeAt(MessageStart)
    {
      ok := WriteEvent(MessageStart);
    }

    method Answer(events: seq<UpEvent>) returns (ok: bool)
      requires Fresh()
      modifies this
      ensures if ok then Intact() && out == Trace(events) else CutOff(Trace(events))
      ensures ok ==> (hasContent || toolStarted) == (Segments(events) != [])
    {
      FreshOwes(events);
      ghost var blocks, end := [MessageStart] + BlocksOwed(events), [MessageDelta(ReasonOwed(events)), MessageStop];
      ok := Begin(events);
      if !ok { return; }
      ghost var rest;
      ok, rest := HandleEvents(events);
      if !ok {
        CutOffLonger(blocks, end);
        return;
      }
      ok := Finish(rest);
    }

    /** The same from the lines of the upstream body. */
    method AnswerBody(lines: seq<string>, parse: string -> Option<UpEvent>, cancelAt: nat) returns (ok: bool)
      requires Fresh()
      modifies this
      ensures var events := StreamLines.Events(StreamLines.Take(lines, cancelAt), parse);
              && (if ok then Intact() && out == Trace(events) else CutOff(Trace(events)))
              && (ok ==> (hasContent || toolStarted) == (Segments(events) != []))
    {
      ghost var events := StreamLines.Events(StreamLines.Take(lines, cancelAt), parse);
      FreshOwes(events);
      ghost var blocks, end := [MessageStart] + BlocksOwed(events), [MessageDelta(ReasonOwed(events)), MessageStop];
      ok := Begin(events);
      if !ok { return; }
      ghost var rest;
      ok, rest := HandleLines(lines, parse, cancelAt);
      if !ok {
        CutOffLonger(blocks, end);
        return;
      }
      ok := Finish(rest);
    }
  }

  /**
   The handler.  Whatever the upstream events and whenever the connection breaks, what is sent is
   the answer to the events, whole or cut at the break, where the name line of the next event may
   have gone out; and the request counts as a success exactly when the whole answer was sent and
   has a block.
   */
  method HandleStream(events: seq<UpEvent>, writes: nat) returns (out: seq<OutEvent>, torn: Option<OutEvent>, success: bool)
    ensures var limit, whole := writes / 2, Trace(events);
            if |whole| <= limit then out == whole && WellFormed(out) && torn.None?
            else out == whole[..limit] && WellFormedSoFar(out) && torn == if writes % 2 == 1 then Some(whole[limit]) else None
    ensures success <==> 2 * |Trace(events)| <= writes && Segments(events) != []
  {
    var w := new AnthropicStreamWriter(writes);
    var ok := w.Answer(events);
    TraceWellFormed(events, if ok then 0 else w.limit);
    out, torn := w.out, w.torn;
    success := ok && (w.hasContent || w.toolStarted);
  }

  /**
   The handler from the lines of the upstream body.  A cancellation or a read error only ends the
   events early: what was read is answered in full, stop reason and all, and counts as a success if
   it has a block and the connection takes it.
   */
  method HandleStreamBody(lines: seq<string>, parse: string -> Option<UpEvent>, cancelAt: nat, writes: nat)
    returns (out: seq<OutEvent>, torn: Option<OutEvent>, success: bool)
    ensures var limit, whole := writes / 2, Trace(StreamLines.Events(StreamLines.Take(lines, cancelAt), parse));
            if |whole| <= limit then out == whole && WellFormed(out) && torn.None?
            else out == whole[..limit] && WellFormedSoFar(out) && torn == if writes % 2 == 1 then Some(whole[limit]) else None
    ensures var events := StreamLines.Events(StreamLines.Take(lines, cancelAt), parse);
            success <==> 2 * |Trace(events)| <= writes && Segments(events) != []
  {
    var w := new AnthropicStreamWriter(writes);
    var ok := w.AnswerBody(lines, parse, cancelAt);
    ghost var events := StreamLines.Events(StreamLines.Take(lines, cancelAt), parse);
    TraceWellFormed(events, if ok then 0 else w.limit);
    out, torn := w.out, w.torn;
    success := ok && (w.hasContent || w.toolStarted);
  }
}
