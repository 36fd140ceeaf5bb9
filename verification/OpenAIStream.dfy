/** The two OpenAI handlers as loops over the upstream events. */
module OpenAIStream {
  import opened Wrappers
  import opened OpenAIProtocol
  import opened OpenAIChunks
  import StreamLines

  // ----- the streaming handler -----

  method SendToolCallsAndFinish(sent: seq<Chunk>, toolCalls: seq<IndexedCall>, finishReason: string, firstChunkSent: bool)
    returns (chunks: seq<Chunk>)
    ensures chunks == sent + (if |toolCalls| == 0 then [] else [ToolChunk(!firstChunkSent, toolCalls)])
                      + [FinishChunk(finishReason), DoneMarker]
  {
    chunks := sent;
    if |toolCalls| > 0 {
      chunks := chunks + [ToolChunk(!firstChunkSent, toolCalls)];
    }
    chunks := chunks + [FinishChunk(finishReason)];
    chunks := chunks + [DoneMarker];
  }

  /** The handler's variables follow the streaming machine: finished calls numbered, the current one next. */
  ghost predicate Tracks(s: Streaming, currentTool: Option<IndexedCall>, toolCalls: seq<IndexedCall>) {
    && toolCalls == Indexed(s.done)
    && currentTool == if s.current.Some? then Some(IndexedCall(|s.done|, s.current.value)) else None
  }

  method FinalizeTool(currentTool: Option<IndexedCall>, toolCalls: seq<IndexedCall>, ghost s: Streaming)
    returns (calls: seq<IndexedCall>)
    requires Tracks(s, currentTool, toolCalls)
    ensures calls == Indexed(s.Calls())
  {
    calls := toolCalls;
    if currentTool.Some? {
      IndexedSnoc(s.done, s.current.value);
      calls := calls + [currentTool.value];
    }
  }

  function ExtendCall(item: IndexedCall, args: string): IndexedCall {
    item.(call := item.call.(args := item.call.args + args))
  }

  /** A ToolCall or FunctionCall event starts a call, completing the one before, or extends the current one. */
  method ReceiveCall(current: Option<IndexedCall>, calls: seq<IndexedCall>, generated: nat, e: UpEvent, newId: nat -> string,
                     ghost s: Streaming)
    returns (currentTool: Option<IndexedCall>, toolCalls: seq<IndexedCall>, count: nat)
    requires Tracks(s, current, calls) && generated == s.generated
    ensures Tracks(StreamStep(s, e, newId), currentTool, toolCalls) && count == StreamStep(s, e, newId).generated
  {
    currentTool, toolCalls, count := current, calls, generated;
    match e {
      case ToolCall(id, name, args) =>
        if id != "" {
          toolCalls := FinalizeTool(currentTool, toolCalls, s);
          currentTool := None;
          if name != "" {
            currentTool := Some(IndexedCall(|toolCalls|, Call(id, name, "")));
          }
        } else if currentTool.Some? {
          currentTool := Some(ExtendCall(currentTool.value, args));
        }
      case FunctionCall(name, args) =>
        if name != "" {
          toolCalls := FinalizeTool(currentTool, toolCalls, s);
          currentTool := Some(IndexedCall(|toolCalls|, Call(newId(count), name, "")));
          count := count + 1;
        } else if currentTool.Some? {
          currentTool := Some(ExtendCall(currentTool.value, args));
        }
      case _ =>
    }
  }

  /** Both ends of the stream finish alike: the call being received is completed, then all are sent. */
  method FinishStream(ghost texts: seq<string>, ghost s: Streaming, sent: seq<Chunk>, currentTool: Option<IndexedCall>,
                      toolCalls: seq<IndexedCall>, reason: string, firstChunkSent: bool)
    returns (chunks: seq<Chunk>)
    requires sent == TextChunks(texts) && firstChunkSent == (|texts| > 0) && Tracks(s, currentTool, toolCalls)
    ensures chunks == Rendered(texts, s.Calls(), FinishReason(reason, s.Calls()))
  {
    var calls := FinalizeTool(currentTool, toolCalls, s);
    var finishReason := FINISH_STOP;
    if reason != "" {
      finishReason := MapFinishReason(reason);
    } else if |calls| > 0 {
      finishReason := FINISH_TOOL_CALLS;
    }
    chunks := SendToolCallsAndFinish(sent, calls, finishReason, firstChunkSent);
  }

  method SendContent(sent: seq<Chunk>, text: string, firstChunkSent: bool, ghost texts: seq<string>) returns (chunks: seq<Chunk>)
    requires sent == TextChunks(texts) && firstChunkSent == (|texts| > 0)
    ensures chunks == TextChunks(texts + [text])
  {
    TextChunksSnoc(texts, text);
    chunks := sent + [ContentChunk(!firstChunkSent, text)];
  }

  method ReceiveContent(sent: seq<Chunk>, text: string, firstChunkSent: bool, ghost texts: seq<string>)
    returns (chunks: seq<Chunk>, firstChunkSent': bool)
    requires sent == TextChunks(texts) && firstChunkSent == (|texts| > 0)
    ensures var texts' := texts + if text != "" then [text] else [];
            chunks == TextChunks(texts') && firstChunkSent' == (|texts'| > 0)
  {
    chunks, firstChunkSent' := sent, firstChunkSent;
    if text == "" {
      assert texts + [] == texts;
      return;
    }
    chunks := SendContent(sent, text, firstChunkSent, texts);
    firstChunkSent' := true;
  }

  const START := Streaming([], None, 0)

  /** The machine and the texts after one more event that does not finish the stream. */
  lemma OneMoreEvent(events: seq<UpEvent>, i: nat, newId: nat -> string)
    requires i < |events|
    ensures StreamRun(START, events[..i + 1], newId) == StreamStep(StreamRun(START, events[..i], newId), events[i], newId)
    ensures Texts(events[..i + 1])
         == Texts(events[..i]) + if events[i].Content? && events[i].text != "" then [events[i].text] else []
  {
    assert events[..i + 1] == events[..i] + [events[i]];
    StreamSnoc(START, events[..i], events[i], newId);
    TextsSnoc(events[..i], events[i]);
  }

  /** Where the body of the events ends, and what is to be sent then. */
  lemma AtEnd(events: seq<UpEvent>, newId: nat -> string)
    ensures |Body(events)| <= |events| && Body(events) == events[..|Body(events)|]
    ensures Finished(events) <==> |Body(events)| < |events|
    ensures forall i :: 0 <= i < |Body(events)| ==> !events[i].FinishMetadata?
    ensures Finished(events) ==> events[|Body(events)|] == FinishMetadata(UpstreamReason(events))
    ensures !Finished(events) ==> UpstreamReason(events) == ""
  {
    BodyFacts(events);
    forall i | 0 <= i < |Body(events)| ensures !events[i].FinishMetadata? {
      assert events[i] == Body(events)[i];
    }
  }

  /** The handler's variables after the text and the calls received so far. */
  ghost predicate Reading(s: Streaming, texts: seq<string>, chunks: seq<Chunk>, firstChunkSent: bool,
                          currentTool: Option<IndexedCall>, toolCalls: seq<IndexedCall>, generated: nat)
  {
    && chunks == TextChunks(texts) && firstChunkSent == (|texts| > 0)
    && Tracks(s, currentTool, toolCalls) && generated == s.generated
  }

  /** The callback for one event that does not finish the stream. */
  method ReceiveEvent(e: UpEvent, newId: nat -> string, sent: seq<Chunk>, first: bool, tool: Option<IndexedCall>,
                      calls: seq<IndexedCall>, count: nat, ghost s: Streaming, ghost texts: seq<string>)
    returns (chunks: seq<Chunk>, firstChunkSent: bool, currentTool: Option<IndexedCall>, toolCalls: seq<IndexedCall>,
             generated: nat, ghost s': Streaming, ghost texts': seq<string>)
    requires !e.FinishMetadata? && Reading(s, texts, sent, first, tool, calls, count)
    ensures s' == StreamStep(s, e, newId)
    ensures texts' == texts + if e.Content? && e.text != "" then [e.text] else []
    ensures Reading(s', texts', chunks, firstChunkSent, currentTool, toolCalls, generated)
  {
    chunks, firstChunkSent, currentTool, toolCalls, generated := sent, first, tool, calls, count;
    s', texts' := StreamStep(s, e, newId), texts + if e.Content? && e.text != "" then [e.text] else [];
    if e.Content? {
      chunks, firstChunkSent := ReceiveContent(sent, e.text, first, texts);
    } else {
      assert texts + [] == texts;
      currentTool, toolCalls, generated := ReceiveCall(tool, calls, count, e, newId, s);
    }
  }

  lemma NothingRead(events: seq<UpEvent>, newId: nat -> string, chunks: seq<Chunk>, calls: seq<IndexedCall>)
    requires |chunks| == 0 && |calls| == 0
    ensures StreamRun(START, events[..0], newId) == START
    ensures Reading(START, Texts(events[..0]), chunks, false, None, calls, 0)
  {}

  /** The callback over the events: it finishes the stream at the first FinishMetadata and leaves it open otherwise. */
  method StreamEvents(events: seq<UpEvent>, newId: nat -> string)
    returns (chunks: seq<Chunk>, streamFinished: bool, firstChunkSent: bool, currentTool: Option<IndexedCall>,
             toolCalls: seq<IndexedCall>)
    ensures streamFinished <==> Finished(events)
    ensures streamFinished ==> chunks == Stream(events, newId)
    ensures !streamFinished ==>
              && chunks == TextChunks(Texts(events)) && firstChunkSent == (|Texts(events)| > 0)
              && Tracks(StreamRun(START, events, newId), currentTool, toolCalls)
  {
    chunks, toolCalls, currentTool := [], [], None;
    firstChunkSent, streamFinished := false, false;
    var generated: nat := 0;
    ghost var s, texts := START, Texts(events[..0]);
    NothingRead(events, newId, chunks, toolCalls);
    AtEnd(events, newId);
    var i := 0;
    while i < |events|
      invariant i <= |Body(events)|
      invariant s == StreamRun(START, events[..i], newId) && texts == Texts(events[..i])
      invariant Reading(s, texts, chunks, firstChunkSent, currentTool, toolCalls, generated)
    {
      if events[i].FinishMetadata? {
        chunks := FinishStream(texts, s, chunks, currentTool, toolCalls, events[i].reason, firstChunkSent);
        streamFinished := true;
        return;
      }
      OneMoreEvent(events, i, newId);
      chunks, firstChunkSent, currentTool, toolCalls, generated, s, texts :=
        ReceiveEvent(events[i], newId, chunks, firstChunkSent, currentTool, toolCalls, generated, s, texts);
      i := i + 1;
    }
    assert events[..i] == events;
  }

  /**
   `failed` says that reading the upstream ended in an error after these events.  The whole stream is sent unless
   that happened before any FinishMetadata, in which case the text read so far is; an error is never a success.
   */
  method HandleStreaming(events: seq<UpEvent>, failed: bool, newId: nat -> string)
    returns (chunks: seq<Chunk>, success: bool)
    ensures success <==> !failed
    ensures Finished(events) || !failed ==>
              chunks == Stream(events, newId) && Complete(chunks) && Rebuild(EMPTY, chunks) == Streamed(events, newId)
    ensures !Finished(events) && failed ==>
              chunks == TextChunks(Texts(events)) && Rebuild(EMPTY, chunks) == Message(TextOf(events), [], "")
  {
    var sent, streamFinished, firstChunkSent, currentTool, toolCalls := StreamEvents(events, newId);
    chunks, success := sent, !failed;
    StreamRebuilds(events, newId);
    if !streamFinished {
      AtEnd(events, newId);
      assert events[..|events|] == events;
      RebuildTexts(events);
      if !failed {
        ghost var s := StreamRun(START, events, newId);
        chunks := FinishStream(Texts(events), s, chunks, currentTool, toolCalls, "", firstChunkSent);
      }
    }
  }

  // ----- the non-streaming handler -----

  method FinalizeLegacy(calls: seq<Call>, name: string, args: string, generated: nat, newId: nat -> string)
    returns (calls': seq<Call>, name': string, args': string, generated': nat)
    ensures Collecting(calls', name', args', generated') == Finalized(Collecting(calls, name, args, generated), newId)
  {
    if name == "" {
      return calls, name, args, generated;
    }
    return calls + [Call(newId(generated), name, args)], "", "", generated + 1;
  }

  /** The message does not depend on whether reading the upstream ended in an error; what is recorded does. */
  method HandleNonStreaming(events: seq<UpEvent>, failed: bool, newId: nat -> string) returns (message: Message, success: bool)
    ensures message == Collected(events, newId) && success == !failed
  {
    var content := "";
    var toolCalls: seq<Call> := [];
    var currentFuncName, currentFuncArgs, upstreamFinishReason := "", "", "";
    var generated: nat := 0;
    var stopped := false;
    ghost var start := Collecting([], "", "", 0);
    BodyFacts(events);
    var i := 0;
    while i < |events| && !stopped
      invariant i <= |Body(events)| && (stopped ==> i == |Body(events)| < |events|)
      invariant content == TextOf(events[..i])
      invariant stopped ==> upstreamFinishReason == UpstreamReason(events)
      invariant !stopped ==> upstreamFinishReason == ""
      invariant var n := CollectRun(start, events[..i], newId);
                Collecting(toolCalls, currentFuncName, currentFuncArgs, generated) ==
                if stopped then Finalized(n, newId).(legacyArgs := currentFuncArgs) else n
      decreases |events| - i, !stopped
    {
      var e := events[i];
      assert events[..i + 1] == events[..i] + [e];
      CollectSnoc(start, events[..i], e, newId);
      TextSnoc(events[..i], e);
      match e {
        case Content(text) => content := content + text;
        case ToolCall(id, name, args) =>
          if id != "" {
            toolCalls, currentFuncName, currentFuncArgs, generated :=
              FinalizeLegacy(toolCalls, currentFuncName, currentFuncArgs, generated, newId);
            if name != "" {
              toolCalls := toolCalls + [Call(id, name, "")];
            }
          } else if |toolCalls| > 0 {
            var last := toolCalls[|toolCalls| - 1];
            toolCalls := toolCalls[|toolCalls| - 1 := last.(args := last.args + args)];
          } else {
            currentFuncArgs := currentFuncArgs + args;
          }
        case FunctionCall(name, args) =>
          if name != "" {
            toolCalls, currentFuncName, currentFuncArgs, generated :=
              FinalizeLegacy(toolCalls, currentFuncName, currentFuncArgs, generated, newId);
            currentFuncName := name;
            currentFuncArgs := "";
          }
          if currentFuncName != "" {
            currentFuncArgs := currentFuncArgs + args;
          }
        case FinishMetadata(reason) =>
          if reason != "" {
            upstreamFinishReason := reason;
          }
          toolCalls, currentFuncName, currentFuncArgs, generated :=
            FinalizeLegacy(toolCalls, currentFuncName, currentFuncArgs, generated, newId);
          stopped := true;
        case Other =>
      }
      if !stopped {
        i := i + 1;
      }
    }
    assert Body(events) == events[..i];
    if currentFuncName != "" {
      toolCalls, currentFuncName, currentFuncArgs, generated :=
        FinalizeLegacy(toolCalls, currentFuncName, currentFuncArgs, generated, newId);
    }
    var finishReason := FINISH_STOP;
    if upstreamFinishReason != "" {
      finishReason := MapFinishReason(upstreamFinishReason);
    } else if |toolCalls| > 0 {
      finishReason := FINISH_TOOL_CALLS;
    }
    message, success := Message(content, toolCalls, finishReason), !failed;
  }

  /** Both handlers on the same events: what the client of the one rebuilds is the message of the other exactly
      when no argument text strays, on streams of tool calls; and it is on every coherent stream. */
  method BothHandlers(events: seq<UpEvent>, newId: nat -> string) returns (rebuilt: Message, message: Message)
    ensures rebuilt == Streamed(events, newId) && message == Collected(events, newId)
    ensures NoFunctionCalls(Body(events)) ==> (rebuilt == message <==> NoStrayArgs(Body(events), false, false))
    ensures NoToolCalls(Body(events)) ==> (rebuilt == message <==> NamesCarryNoArgs(Body(events)))
    ensures Coherent(Body(events), NoCall, false) ==> rebuilt == message
  {
    var chunks, success := HandleStreaming(events, false, newId);
    rebuilt := Rebuild(EMPTY, chunks);
    var recorded;
    message, recorded := HandleNonStreaming(events, false, newId);
    if NoFunctionCalls(Body(events)) {
      AgreeOnToolCalls(events, newId);
    }
    if NoToolCalls(Body(events)) {
      AgreeOnFunctionCalls(events, newId);
    }
    if Coherent(Body(events), NoCall, false) {
      AgreeOnCoherentStreams(events, newId);
    }
  }

  // ----- from the lines of the upstream body -----

  /** Both callbacks ask for more until a FinishMetadata comes. */
  predicate GoOn(i: nat, e: UpEvent) {
    !e.FinishMetadata?
  }

  lemma FinishedLater(events: seq<UpEvent>)
    requires |events| > 0 && !events[0].FinishMetadata?
    ensures Finished(events) <==> Finished(events[1..])
  {
    forall i | 0 < i < |events| ensures events[i] == events[1..][i - 1] {}
    if Finished(events) {
      var i :| 0 <= i < |events| && events[i].FinishMetadata?;
      assert events[1..][i - 1].FinishMetadata?;
    }
  }

  lemma {:induction false} UntilFinish(events: seq<UpEvent>, first: nat)
    ensures var handled := StreamLines.Until(events, GoOn, first);
      && Body(handled) == Body(events) && UpstreamReason(handled) == UpstreamReason(events)
      && (Finished(handled) <==> Finished(events)) && (!Finished(events) ==> handled == events)
    decreases |events|
  {
    if |events| > 0 {
      var handled := StreamLines.Until(events, GoOn, first);
      if events[0].FinishMetadata? {
        assert handled[0].FinishMetadata?;
      } else {
        UntilFinish(events[1..], first + 1);
        assert handled[1..] == StreamLines.Until(events[1..], GoOn, first + 1);
        FinishedLater(events);
        FinishedLater(handled);
      }
    }
  }

  /**
   The streaming handler from the lines of the body to the client's message.  The request counts as
   cancelled once `cancelAt` lines were read, and reading meets an error with line `errorAt`.
   */
  method HandleStreamingBody(lines: seq<string>, parse: string -> Option<UpEvent>, cancelAt: nat, errorAt: nat,
                             newId: nat -> string)
    returns (chunks: seq<Chunk>, success: bool)
    ensures var read := StreamLines.LinesRead(lines, parse, GoOn); success <==> read <= cancelAt && read < errorAt
    ensures var events := StreamLines.Events(StreamLines.Take(lines, cancelAt), parse);
            if Finished(events) || success then
              chunks == Stream(events, newId) && Complete(chunks) && Rebuild(EMPTY, chunks) == Streamed(events, newId)
            else chunks == TextChunks(Texts(events)) && Rebuild(EMPTY, chunks) == Message(TextOf(events), [], "")
  {
    UntilFinish(StreamLines.Events(StreamLines.Take(lines, cancelAt), parse), 0);
    var handled, failed := StreamLines.ProcessStream(lines, parse, GoOn, cancelAt, errorAt);
    chunks, success := HandleStreaming(handled, failed, newId);
  }

  /** The non-streaming handler from the lines of the body to the message it answers. */
  method HandleNonStreamingBody(lines: seq<string>, parse: string -> Option<UpEvent>, cancelAt: nat, errorAt: nat,
                                newId: nat -> string)
    returns (message: Message, success: bool)
    ensures var read := StreamLines.LinesRead(lines, parse, GoOn); success <==> read <= cancelAt && read < errorAt
    ensures message == Collected(StreamLines.Events(StreamLines.Take(lines, cancelAt), parse), newId)
  {
    UntilFinish(StreamLines.Events(StreamLines.Take(lines, cancelAt), parse), 0);
    var handled, failed := StreamLines.ProcessStream(lines, parse, GoOn, cancelAt, errorAt);
    message, success := HandleNonStreaming(handled, failed, newId);
  }
}
