/**
 What one more upstream event does to the client's copy of the answer.  Together these laws fix the
 blocks, their order and their contents, and the stop reason, for every sequence of events.
 */
module AnthropicLaws {
  import opened AnthropicProtocol
  import opened Collections
  import Parsed = AnthropicParsed
  import opened Text
  import opened Wrappers

  /** The blocks a client of the whole stream ends up with. */
  function Blocks(events: seq<UpEvent>): seq<Block> {
    Decode([], Trace(events))
  }

  // ----- one event more, as segments -----

  /** `segs` with one more text at the end: in the last block if that is a text block. */
  function Attach(segs: seq<Segment>, text: string): seq<Segment> {
    var last := |segs| - 1;
    if |segs| > 0 && segs[last].TextSeg? then segs[last := TextSeg(segs[last].chunks + [text])]
    else segs + [TextSeg([text])]
  }

  lemma JoinAttach(first: string, segs: seq<Segment>, last: string)
    ensures Join(first, Attach(segs, last)) == Attach(Join(first, segs), last)
  {
    if |segs| > 0 && segs[0].TextSeg? && |segs| == 1 {
      assert [first] + (segs[0].chunks + [last]) == ([first] + segs[0].chunks) + [last];
    }
  }

  lemma AttachBehind(seg: Segment, segs: seq<Segment>, text: string)
    requires seg.ToolSeg?
    ensures [seg] + Attach(segs, text) == Attach([seg] + segs, text)
  {
  }

  lemma ArgsStop(events: seq<UpEvent>, e: UpEvent)
    requires Flushes(e)
    ensures ArgsAfter(events + [e]) == ArgsAfter(events)
  {
    if |events| > 0 {
      assert (events + [e])[1..] == events[1..] + [e];
      ArgsStop(events[1..], e);
    }
  }

  lemma OneText(text: string)
    ensures Segments([Content(text)]) == if |text| > 0 then [TextSeg([text])] else []
  {
    assert |[Content(text)][1..]| == 0;
  }

  /** A text goes to the end. */
  lemma {:induction false} TextAtEnd(events: seq<UpEvent>, text: string)
    requires |text| > 0
    ensures Segments(events + [Content(text)]) == Attach(Segments(events), text)
  {
    var e := Content(text);
    if |events| == 0 {
      assert events + [e] == [e];
      OneText(text);
    } else {
      var first, rest := events[0], Segments(events[1..]);
      assert (events + [e])[1..] == events[1..] + [e];
      TextAtEnd(events[1..], text);
      ArgsStop(events[1..], e);
      if first.Content? && first.text != "" {
        JoinAttach(first.text, rest, text);
      } else if StartsTool(first) {
        AttachBehind(ToolSeg(first.id, first.name, InputOf(ArgsAfter(events[1..]))), rest, text);
      }
    }
  }

  predicate Silent(e: UpEvent) {
    !StartsTool(e) && (e.Content? ==> |e.text| == 0)
  }

  /** An empty text, a finish event and whatever is not for the client leave the blocks alone, after a flush. */
  lemma {:induction false} FlushAtEnd(events: seq<UpEvent>, e: UpEvent)
    requires Silent(e) && Flushes(e)
    ensures Segments(events + [e]) == Segments(events)
  {
    if |events| == 0 {
      assert (events + [e])[1..] == events;
    } else {
      assert (events + [e])[1..] == events[1..] + [e];
      FlushAtEnd(events[1..], e);
      ArgsStop(events[1..], e);
    }
  }

  lemma JoinFront(text: string, a: seq<Segment>, b: seq<Segment>)
    requires |b| > 0 ==> b[0].ToolSeg?
    ensures Join(text, a + b) == Join(text, a) + b
  {
    if |a| > 0 && a[0].TextSeg? {
      assert (a + b)[1..] == a[1..] + b;
    } else {
      assert [TextSeg([text])] + (a + b) == ([TextSeg([text])] + a) + b;
    }
  }

  lemma {:induction false} ArgsBefore(events: seq<UpEvent>, start: UpEvent, during: seq<UpEvent>)
    requires Flushes(start)
    ensures ArgsAfter(events + ([start] + during)) == ArgsAfter(events)
  {
    if |events| > 0 {
      assert (events + ([start] + during))[1..] == events[1..] + ([start] + during);
      ArgsBefore(events[1..], start, during);
    } else {
      assert events + ([start] + during) == [start] + during;
    }
  }

  /** A tool start divides the answer: what comes before it is finished. */
  lemma {:induction false} ToolDivides(events: seq<UpEvent>, start: UpEvent, during: seq<UpEvent>)
    requires StartsTool(start)
    ensures Segments(events + ([start] + during)) == Segments(events) + Segments([start] + during)
  {
    var later := [start] + during;
    if |events| == 0 {
      assert events + later == later;
    } else {
      assert (events + later)[1..] == events[1..] + later;
      ToolDivides(events[1..], start, during);
      ArgsBefore(events[1..], start, during);
      var rest, tail := Segments(events[1..]), Segments(later);
      assert later[1..] == during;
      if events[0].Content? && events[0].text != "" {
        JoinFront(events[0].text, rest, tail);
      } else if StartsTool(events[0]) {
        var seg := ToolSeg(events[0].id, events[0].name, InputOf(ArgsAfter(events[1..])));
        assert [seg] + (rest + tail) == ([seg] + rest) + tail;
      }
    }
  }

  /** No event that would send a pending tool call. */
  predicate Waiting(events: seq<UpEvent>) {
    forall i :: 0 <= i < |events| ==> !Flushes(events[i])
  }

  lemma {:induction false} NothingMeanwhile(during: seq<UpEvent>)
    requires Waiting(during)
    ensures |Segments(during)| == 0
  {
    if |during| > 0 {
      assert !Flushes(during[0]);
      NothingMeanwhile(during[1..]);
    }
  }

  // ----- one event more, as the client sees it -----

  lemma {:induction false} BlocksOfAppend(a: seq<Segment>, b: seq<Segment>)
    ensures BlocksOf(a + b) == BlocksOf(a) + BlocksOf(b)
  {
    if |a| == 0 {
      assert a + b == b;
    } else {
      assert (a + b)[1..] == a[1..] + b;
      BlocksOfAppend(a[1..], b);
    }
  }

  lemma OneBlock(seg: Segment)
    ensures BlocksOf([seg]) == [BlockOf(seg)]
  {
    assert |[seg][1..]| == 0;
  }

  lemma {:induction false} ConcatSnoc(chunks: seq<string>, text: string)
    ensures Concat(chunks + [text]) == Concat(chunks) + text
  {
    if |chunks| == 0 {
      assert chunks + [text] == [text] && |[text][1..]| == 0;
      assert text + "" == text;
    } else {
      assert (chunks + [text])[1..] == chunks[1..] + [text];
      ConcatSnoc(chunks[1..], text);
      assert chunks[0] + (Concat(chunks[1..]) + text) == (chunks[0] + Concat(chunks[1..])) + text;
    }
  }

  lemma OneChunk(text: string)
    ensures Concat([text]) == text
  {
    assert |[text][1..]| == 0;
    assert text + "" == text;
  }

  lemma NewTextBlock(segs: seq<Segment>, text: string)
    ensures BlocksOf(segs + [TextSeg([text])]) == BlocksOf(segs) + [Text(text)]
  {
    BlocksOfAppend(segs, [TextSeg([text])]);
    OneBlock(TextSeg([text]));
    OneChunk(text);
  }

  lemma LongerTextBlock(init: seq<Segment>, chunks: seq<string>, text: string)
    ensures BlocksOf(init + [TextSeg(chunks)]) == BlocksOf(init) + [Text(Concat(chunks))]
    ensures BlocksOf(init + [TextSeg(chunks + [text])]) == BlocksOf(init) + [Text(Concat(chunks) + text)]
  {
    BlocksOfAppend(init, [TextSeg(chunks)]);
    OneBlock(TextSeg(chunks));
    BlocksOfAppend(init, [TextSeg(chunks + [text])]);
    OneBlock(TextSeg(chunks + [text]));
    ConcatSnoc(chunks, text);
  }

  lemma {:induction false} BlocksLength(segs: seq<Segment>)
    ensures |BlocksOf(segs)| == |segs|
  {
    if |segs| > 0 {
      BlocksLength(segs[1..]);
    }
  }

  lemma {:induction false} BlockAt(segs: seq<Segment>, i: nat)
    requires i < |segs|
    ensures |BlocksOf(segs)| == |segs| && BlocksOf(segs)[i] == BlockOf(segs[i])
  {
    BlocksLength(segs);
    if i > 0 {
      BlockAt(segs[1..], i - 1);
    }
  }

  lemma AttachToText(segs: seq<Segment>, text: string)
    requires |segs| > 0 && segs[|segs| - 1].TextSeg?
    ensures var blocks, n := BlocksOf(segs), |BlocksOf(segs)|;
            && n > 0 && blocks[n - 1].Text?
            && BlocksOf(Attach(segs, text)) == blocks[..n - 1] + [Text(blocks[n - 1].text + text)]
  {
    var init, chunks := segs[..|segs| - 1], segs[|segs| - 1].chunks;
    LongerTextBlock(init, chunks, text);
    assert segs == init + [TextSeg(chunks)];
    assert Attach(segs, text) == init + [TextSeg(chunks + [text])];
  }

  lemma AttachBehindTool(segs: seq<Segment>, text: string)
    requires |segs| > 0 ==> segs[|segs| - 1].ToolSeg?
    ensures var blocks, n := BlocksOf(segs), |BlocksOf(segs)|;
            && (n > 0 ==> blocks[n - 1].Tool?)
            && BlocksOf(Attach(segs, text)) == blocks + [Text(text)]
  {
    NewTextBlock(segs, text);
    BlocksLength(segs);
    if |segs| > 0 {
      BlockAt(segs, |segs| - 1);
    }
  }

  lemma AttachBlocks(segs: seq<Segment>, text: string)
    ensures var blocks, n := BlocksOf(segs), |BlocksOf(segs)|;
            BlocksOf(Attach(segs, text)) ==
            if n > 0 && blocks[n - 1].Text? then blocks[..n - 1] + [Text(blocks[n - 1].text + text)]
            else blocks + [Text(text)]
  {
    if |segs| > 0 && segs[|segs| - 1].TextSeg? {
      AttachToText(segs, text);
    } else {
      AttachBehindTool(segs, text);
    }
  }

  /** Before any event there is no block. */
  lemma NoEventsNoBlocks(events: seq<UpEvent>)
    requires |events| == 0
    ensures |Blocks(events)| == 0
  {
    ClientRebuildsMessage(events);
  }

  /** A text joins the last block if that is a text block, and else begins the next. */
  lemma TextArrives(events: seq<UpEvent>, text: string)
    requires |text| > 0
    ensures var blocks, n := Blocks(events), |Blocks(events)|;
            Blocks(events + [Content(text)]) ==
            if n > 0 && blocks[n - 1].Text? then blocks[..n - 1] + [Text(blocks[n - 1].text + text)]
            else blocks + [Text(text)]
  {
    ClientRebuildsMessage(events);
    ClientRebuildsMessage(events + [Content(text)]);
    TextAtEnd(events, text);
    AttachBlocks(Segments(events), text);
  }

  /** A named id begins a tool block behind all others, and the argument text up to the next text, finish or start is
      its input, trimmed; `{}` if that is blank. */
  lemma ToolArrives(events: seq<UpEvent>, id: string, name: string, args: Option<string>, during: seq<UpEvent>)
    requires |id| > 0 && |name| > 0 && Waiting(during)
    ensures var input := TrimSpace(ArgsAfter(during));
            Blocks(events + ([ToolCall(id, name, args)] + during)) ==
            Blocks(events) + [Tool(id, name, if |input| == 0 then "{}" else input)]
  {
    var start := ToolCall(id, name, args);
    ClientRebuildsMessage(events);
    ClientRebuildsMessage(events + ([start] + during));
    ToolDivides(events, start, during);
    assert ([start] + during)[1..] == during;
    NothingMeanwhile(during);
    var seg := ToolSeg(id, name, InputOf(ArgsAfter(during)));
    assert Segments([start] + during) == [seg];
    BlocksOfAppend(Segments(events), [seg]);
    OneBlock(seg);
  }

  /** That argument text is all of it, in order: what comes with an id does not count. */
  lemma {:induction false} ArgumentsArrive(during: seq<UpEvent>, e: UpEvent)
    requires Waiting(during) && !Flushes(e)
    ensures ArgsAfter(during + [e]) ==
            ArgsAfter(during) + if e.ToolCall? && |e.id| == 0 && e.args.Some? then e.args.value else ""
  {
    if |during| == 0 {
      assert during + [e] == [e] && |[e][1..]| == 0;
      assert Fragment(e) + "" == Fragment(e);
    } else {
      assert !Flushes(during[0]);
      assert (during + [e])[1..] == during[1..] + [e];
      ArgumentsArrive(during[1..], e);
      var more := if e.ToolCall? && |e.id| == 0 && e.args.Some? then e.args.value else "";
      assert Fragment(during[0]) + (ArgsAfter(during[1..]) + more) == (Fragment(during[0]) + ArgsAfter(during[1..])) + more;
    }
  }

  /** Empty texts and finish events send a pending tool call, and change no block. */
  lemma FlushesKeepBlocks(events: seq<UpEvent>, e: UpEvent)
    requires e.FinishMetadata? || (e.Content? && |e.text| == 0)
    ensures Blocks(events + [e]) == Blocks(events)
  {
    ClientRebuildsMessage(events);
    ClientRebuildsMessage(events + [e]);
    FlushAtEnd(events, e);
  }

  lemma {:induction false} IdleAtEnd(before: seq<UpEvent>, flush: UpEvent, during: seq<UpEvent>)
    requires Flushes(flush) && !StartsTool(flush) && Waiting(during)
    ensures Segments(before + ([flush] + during)) == Segments(before + [flush])
  {
    if |before| == 0 {
      assert before + ([flush] + during) == [flush] + during && before + [flush] == [flush];
      assert ([flush] + during)[1..] == during && |[flush][1..]| == 0;
      NothingMeanwhile(during);
    } else {
      assert (before + ([flush] + during))[1..] == before[1..] + ([flush] + during);
      assert (before + [flush])[1..] == before[1..] + [flush];
      IdleAtEnd(before[1..], flush, during);
      ArgsBefore(before[1..], flush, during);
      ArgsStop(before[1..], flush);
    }
  }

  /** With no tool call pending, argument text and ids without a name change nothing. */
  lemma NothingPending(before: seq<UpEvent>, flush: UpEvent, during: seq<UpEvent>)
    requires flush.Content? || flush.FinishMetadata?
    requires Waiting(during)
    ensures Blocks(before + ([flush] + during)) == Blocks(before + [flush])
    ensures |Blocks(during)| == 0
  {
    ClientRebuildsMessage(before + ([flush] + during));
    ClientRebuildsMessage(before + [flush]);
    IdleAtEnd(before, flush, during);
    ClientRebuildsMessage(during);
    NothingMeanwhile(during);
  }

  // ----- the stop reason -----

  lemma {:induction false} NoLaterReason(events: seq<UpEvent>)
    requires forall j :: 0 <= j < |events| && events[j].FinishMetadata? ==> |Given(events[j].reason)| == 0
    ensures |LastReason(events)| == 0
  {
    if |events| > 0 {
      NoLaterReason(events[1..]);
    }
  }

  lemma {:induction false} LastReasonAt(events: seq<UpEvent>, i: nat, reason: string)
    requires i < |events| && events[i] == FinishMetadata(Some(reason)) && |reason| > 0
    requires forall j :: i < j < |events| && events[j].FinishMetadata? ==> |Given(events[j].reason)| == 0
    ensures LastReason(events) == reason
  {
    if i > 0 {
      LastReasonAt(events[1..], i - 1, reason);
    } else {
      NoLaterReason(events[1..]);
    }
  }

  /** The stop reason is that of the last finish event with a reason, translated. */
  lemma StopReasonIs(events: seq<UpEvent>, i: nat, reason: string)
    requires i < |events| && events[i] == FinishMetadata(Some(reason)) && |reason| > 0
    requires forall j :: i < j < |events| && events[j].FinishMetadata? ==> |Given(events[j].reason)| == 0
    ensures StopReason(events) == if reason == "tool_call" then "tool_use"
                                  else if reason == "length" then "max_tokens"
                                  else "end_turn"
  {
    LastReasonAt(events, i, reason);
  }

  /** Without one it is tool_use or end_turn, by whether a tool call was started. */
  lemma StopReasonInferred(events: seq<UpEvent>)
    requires forall j :: 0 <= j < |events| && events[j].FinishMetadata? ==> |Given(events[j].reason)| == 0
    ensures StopReason(events) ==
            if exists i :: 0 <= i < |events| && events[i].ToolCall? && |events[i].id| > 0 && |events[i].name| > 0
            then "tool_use" else "end_turn"
  {
    NoLaterReason(events);
    ToolIffStarted(events);
    assert forall i :: 0 <= i < |events| ==>
      (StartsTool(events[i]) <==> events[i].ToolCall? && |events[i].id| > 0 && |events[i].name| > 0);
  }

  /** And it is the one in the message_delta, right before message_stop. */
  lemma StopReasonIsSent(events: seq<UpEvent>)
    ensures var trace := Trace(events);
            |trace| >= 3 && trace[|trace| - 2] == MessageDelta(StopReason(events)) && trace[|trace| - 1] == MessageStop
  {
  }

  // ----- the same for the non-streaming parser -----

  /** Neither a start nor a finish event. */
  predicate BetweenCalls(events: seq<UpEvent>) {
    forall i :: 0 <= i < |events| ==> !StartsTool(events[i]) && !events[i].FinishMetadata?
  }

  lemma {:induction false} NotCompletedBy(rest: seq<UpEvent>, e: UpEvent)
    requires !e.FinishMetadata?
    ensures Parsed.Completed(rest + [e]) == Parsed.Completed(rest)
    ensures Parsed.Completed(rest) ==> Parsed.ArgsToFinish(rest + [e]) == Parsed.ArgsToFinish(rest)
  {
    if |rest| == 0 {
      assert rest + [e] == [e] && |[e][1..]| == 0;
    } else {
      assert (rest + [e])[1..] == rest[1..] + [e];
      NotCompletedBy(rest[1..], e);
    }
  }

  /** Nothing but a finish event files a call. */
  lemma {:induction false} OnlyFinishFiles(events: seq<UpEvent>, e: UpEvent)
    requires !e.FinishMetadata?
    ensures Parsed.ParsedCalls(events + [e]) == Parsed.ParsedCalls(events)
    ensures |events| == 0 ==> |Parsed.ParsedCalls(events)| == 0
  {
    if |events| == 0 {
      assert events + [e] == [e] && |[e][1..]| == 0;
    } else {
      assert (events + [e])[1..] == events[1..] + [e];
      OnlyFinishFiles(events[1..], e);
      NotCompletedBy(events[1..], e);
    }
  }

  lemma {:induction false} CompletedInFront(rest: seq<UpEvent>, tail: seq<UpEvent>)
    requires Parsed.Completed(rest)
    ensures Parsed.Completed(rest + tail) && Parsed.ArgsToFinish(rest + tail) == Parsed.ArgsToFinish(rest)
  {
    assert (rest + tail)[1..] == rest[1..] + tail;
    if !rest[0].FinishMetadata? {
      CompletedInFront(rest[1..], tail);
    }
  }

  lemma {:induction false} CutOffByStart(rest: seq<UpEvent>, tail: seq<UpEvent>)
    requires !Parsed.Completed(rest) && |tail| > 0 && StartsTool(tail[0])
    ensures !Parsed.Completed(rest + tail)
  {
    if |rest| == 0 {
      assert rest + tail == tail;
    } else {
      assert (rest + tail)[1..] == rest[1..] + tail;
      if !StartsTool(rest[0]) {
        CutOffByStart(rest[1..], tail);
      }
    }
  }

  lemma {:induction false} StartCutsOff(events: seq<UpEvent>, tail: seq<UpEvent>)
    requires |tail| > 0 && StartsTool(tail[0])
    ensures Parsed.ParsedCalls(events + tail) == Parsed.ParsedCalls(events) + Parsed.ParsedCalls(tail)
  {
    if |events| == 0 {
      assert events + tail == tail;
    } else {
      var rest := events[1..];
      assert (events + tail)[1..] == rest + tail;
      StartCutsOff(rest, tail);
      if Parsed.Completed(rest) {
        CompletedInFront(rest, tail);
        if StartsTool(events[0]) {
          var call := Parsed.FiledCall(events[0].id, events[0].name, Parsed.ArgsToFinish(rest));
          assert [call] + (Parsed.ParsedCalls(rest) + Parsed.ParsedCalls(tail))
              == ([call] + Parsed.ParsedCalls(rest)) + Parsed.ParsedCalls(tail);
        }
      } else {
        CutOffByStart(rest, tail);
      }
    }
  }

  lemma {:induction false} CompletedAfter(during: seq<UpEvent>, finish: UpEvent)
    requires BetweenCalls(during) && finish.FinishMetadata?
    ensures Parsed.Completed(during + [finish]) && Parsed.ArgsToFinish(during + [finish]) == Parsed.ArgsToFinish(during)
    ensures |Parsed.ParsedCalls(during + [finish])| == 0
  {
    if |during| == 0 {
      assert during + [finish] == [finish] && |[finish][1..]| == 0;
    } else {
      assert (during + [finish])[1..] == during[1..] + [finish];
      assert !StartsTool(during[0]) && !during[0].FinishMetadata?;
      CompletedAfter(during[1..], finish);
    }
  }

  /** A finish event files the last call started, with the argument text since; a call started before it and not
      filed is lost. */
  lemma FinishFilesLastCall(before: seq<UpEvent>, id: string, name: string, args: Option<string>, during: seq<UpEvent>,
                            finish: UpEvent)
    requires |id| > 0 && |name| > 0 && BetweenCalls(during) && finish.FinishMetadata?
    ensures Parsed.ParsedCalls(before + ([ToolCall(id, name, args)] + (during + [finish]))) ==
            Parsed.ParsedCalls(before) + [Parsed.FiledCall(id, name, Parsed.ArgsToFinish(during))]
  {
    var start := ToolCall(id, name, args);
    var tail := [start] + (during + [finish]);
    StartCutsOff(before, tail);
    assert tail[1..] == during + [finish];
    CompletedAfter(during, finish);
    assert [Parsed.FiledCall(id, name, Parsed.ArgsToFinish(during))] + Parsed.ParsedCalls(tail[1..])
        == [Parsed.FiledCall(id, name, Parsed.ArgsToFinish(during))];
  }

  lemma {:induction false} NothingSince(events: seq<UpEvent>, finish: UpEvent, during: seq<UpEvent>, last: UpEvent)
    requires finish.FinishMetadata? && BetweenCalls(during) && last.FinishMetadata?
    ensures Parsed.ParsedCalls(events + ([finish] + (during + [last]))) == Parsed.ParsedCalls(events + [finish])
    ensures Parsed.Completed(events + ([finish] + (during + [last]))) == Parsed.Completed(events + [finish])
    ensures Parsed.ArgsToFinish(events + ([finish] + (during + [last]))) == Parsed.ArgsToFinish(events + [finish])
  {
    var tail := [finish] + (during + [last]);
    if |events| == 0 {
      assert events + tail == tail && events + [finish] == [finish];
      assert tail[1..] == during + [last] && |[finish][1..]| == 0;
      CompletedAfter(during, last);
    } else {
      assert (events + tail)[1..] == events[1..] + tail && (events + [finish])[1..] == events[1..] + [finish];
      NothingSince(events[1..], finish, during, last);
    }
  }

  /** A finish event with no start since the last one files nothing. */
  lemma FinishFilesOnce(before: seq<UpEvent>, finish: UpEvent, during: seq<UpEvent>, last: UpEvent)
    requires finish.FinishMetadata? && BetweenCalls(during) && last.FinishMetadata?
    ensures Parsed.ParsedCalls(before + ([finish] + (during + [last]))) == Parsed.ParsedCalls(before + [finish])
    ensures |Parsed.ParsedCalls(during + [last])| == 0
  {
    NothingSince(before, finish, during, last);
    CompletedAfter(during, last);
  }

  /** The argument text of a filed call is all that came without an id, texts in between or not. */
  lemma {:induction false} FragmentsFiled(during: seq<UpEvent>, e: UpEvent)
    requires BetweenCalls(during) && !StartsTool(e) && !e.FinishMetadata?
    ensures var raw := Parsed.ArgsToFinish(during);
            Parsed.ArgsToFinish(during + [e]) ==
            if e.ToolCall? && |e.id| == 0 && e.args.Some? then Some(Given(raw) + e.args.value) else raw
    ensures |during| == 0 ==> Parsed.ArgsToFinish(during).None?
  {
    if |during| == 0 {
      assert during + [e] == [e] && |[e][1..]| == 0;
      Parsed.JoinedParts(Parsed.FragmentOf(e), None, None);
      if e.ToolCall? && e.args.Some? {
        assert "" + e.args.value == e.args.value;
      }
    } else {
      assert !StartsTool(during[0]) && !during[0].FinishMetadata?;
      assert (during + [e])[1..] == during[1..] + [e];
      FragmentsFiled(during[1..], e);
      Parsed.JoinedParts(Parsed.FragmentOf(during[0]), Parsed.ArgsToFinish(during[1..]), Parsed.FragmentOf(e));
      Parsed.JoinedParts(Parsed.ArgsToFinish(during[1..]), None, None);
    }
  }

  lemma {:induction false} NoneGiven(events: seq<UpEvent>)
    requires forall j :: 0 <= j < |events| && events[j].FinishMetadata? ==> events[j].reason.None?
    ensures Parsed.LastGiven(events).None?
  {
    if |events| > 0 {
      NoneGiven(events[1..]);
    }
  }

  lemma {:induction false} LastGivenAt(events: seq<UpEvent>, i: nat, reason: string)
    requires i < |events| && events[i] == FinishMetadata(Some(reason))
    requires forall j :: i < j < |events| && events[j].FinishMetadata? ==> events[j].reason.None?
    ensures Parsed.LastGiven(events) == Some(reason)
  {
    if i > 0 {
      LastGivenAt(events[1..], i - 1, reason);
    } else {
      NoneGiven(events[1..]);
    }
  }

  /** The parser's stop reason is that of the last finish event with a reason, blank ones included, and end_turn
      without one. */
  lemma ParsedReasonIs(events: seq<UpEvent>, i: nat)
    requires i <= |events| && forall j :: i <= j < |events| && events[j].FinishMetadata? ==> events[j].reason.None?
    requires i > 0 ==> events[i - 1].FinishMetadata? && events[i - 1].reason.Some?
    ensures Parsed.ReasonFrom(STOP_END_TURN, events) ==
            if i == 0 then "end_turn"
            else if events[i - 1].reason == Some("tool_call") then "tool_use"
            else if events[i - 1].reason == Some("length") then "max_tokens"
            else "end_turn"
  {
    if i > 0 {
      LastGivenAt(events, i - 1, events[i - 1].reason.value);
    } else {
      NoneGiven(events);
    }
  }
}
