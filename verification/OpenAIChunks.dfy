/**
 The chunks of the OpenAI stream: what the streaming handler sends for a message, and what a client
 folds them into.
 */
module OpenAIChunks {
  import opened OpenAIProtocol

  datatype IndexedCall = IndexedCall(index: nat, call: Call)

  /** What the streaming handler writes; `role` says that the delta carries the assistant role. */
  datatype Chunk =
    | ContentChunk(role: bool, text: string)
    | ToolChunk(role: bool, calls: seq<IndexedCall>)
    | FinishChunk(reason: string)
    | DoneMarker

  // ----- what is sent -----

  /** The texts that are sent: those that are not empty. */
  function Texts(events: seq<UpEvent>): (texts: seq<string>)
    ensures forall i :: 0 <= i < |texts| ==> texts[i] != ""
  {
    if |events| == 0 then []
    else
      var last := events[|events| - 1];
      Texts(events[..|events| - 1]) + if last.Content? && last.text != "" then [last.text] else []
  }

  function TextChunks(texts: seq<string>): seq<Chunk> {
    seq(|texts|, i requires 0 <= i < |texts| => ContentChunk(i == 0, texts[i]))
  }

  /** The calls under the indices 0, 1, 2, and so on. */
  function Indexed(calls: seq<Call>): seq<IndexedCall> {
    seq(|calls|, i requires 0 <= i < |calls| => IndexedCall(i, calls[i]))
  }

  /** The text, then all the calls in one chunk, if there are any. */
  function Payloads(texts: seq<string>, calls: seq<Call>): seq<Chunk> {
    TextChunks(texts) + if |calls| == 0 then [] else [ToolChunk(|texts| == 0, Indexed(calls))]
  }

  function Rendered(texts: seq<string>, calls: seq<Call>, reason: string): seq<Chunk> {
    Payloads(texts, calls) + [FinishChunk(reason), DoneMarker]
  }

  lemma TextsSnoc(events: seq<UpEvent>, e: UpEvent)
    ensures Texts(events + [e]) == Texts(events) + if e.Content? && e.text != "" then [e.text] else []
  {
    assert (events + [e])[..|events|] == events;
  }

  lemma TextChunksSnoc(texts: seq<string>, text: string)
    ensures TextChunks(texts + [text]) == TextChunks(texts) + [ContentChunk(|texts| == 0, text)]
  {
  }

  lemma IndexedSnoc(calls: seq<Call>, c: Call)
    ensures Indexed(calls + [c]) == Indexed(calls) + [IndexedCall(|calls|, c)]
  {
  }

  // ----- the shape of the stream -----

  predicate Payload(c: Chunk) {
    c.ContentChunk? || c.ToolChunk?
  }

  /** The assistant role comes on the first payload chunk and on no other. */
  ghost predicate RoleOnFirst(chunks: seq<Chunk>) {
    forall i :: 0 <= i < |chunks| ==> Payload(chunks[i]) && (chunks[i].role <==> i == 0)
  }

  /** The calls are numbered 0, 1, 2, and so on. */
  ghost predicate Numbered(items: seq<IndexedCall>) {
    forall i :: 0 <= i < |items| ==> items[i].index == i
  }

  /** At most one chunk carries calls: the last one, and its calls are numbered. */
  ghost predicate ToolsLast(payload: seq<Chunk>) {
    forall i :: 0 <= i < |payload| && payload[i].ToolChunk? ==> i == |payload| - 1 && Numbered(payload[i].calls)
  }

  /** Payload chunks with the calls last, then one finish chunk, then the end marker. */
  ghost predicate Complete(chunks: seq<Chunk>) {
    && |chunks| >= 2
    && chunks[|chunks| - 2].FinishChunk? && chunks[|chunks| - 1].DoneMarker?
    && RoleOnFirst(chunks[..|chunks| - 2]) && ToolsLast(chunks[..|chunks| - 2])
  }

  lemma PayloadsWellShaped(texts: seq<string>, calls: seq<Call>)
    ensures RoleOnFirst(Payloads(texts, calls)) && ToolsLast(Payloads(texts, calls))
  {
  }

  /** Whatever is said, called and given as reason, the chunks have the shape of a complete stream. */
  lemma RenderedIsComplete(texts: seq<string>, calls: seq<Call>, reason: string)
    ensures Complete(Rendered(texts, calls, reason))
  {
    PayloadsWellShaped(texts, calls);
    assert Rendered(texts, calls, reason)[..|Payloads(texts, calls)|] == Payloads(texts, calls);
  }

  // ----- the client -----

  /** A client takes a call under the next index and skips any other. */
  function Place(calls: seq<Call>, items: seq<IndexedCall>): seq<Call>
    decreases |items|
  {
    if |items| == 0 then calls
    else Place(if items[0].index == |calls| then calls + [items[0].call] else calls, items[1..])
  }

  function Receive(m: Message, c: Chunk): Message {
    match c
    case ContentChunk(_, text) => m.(text := m.text + text)
    case ToolChunk(_, items) => m.(calls := Place(m.calls, items))
    case FinishChunk(reason) => m.(finishReason := reason)
    case DoneMarker => m
  }

  /** The message a client folds the chunks into. */
  function Rebuild(m: Message, chunks: seq<Chunk>): Message {
    if |chunks| == 0 then m else Receive(Rebuild(m, chunks[..|chunks| - 1]), chunks[|chunks| - 1])
  }

  lemma RebuildSnoc(m: Message, chunks: seq<Chunk>, c: Chunk)
    ensures Rebuild(m, chunks + [c]) == Receive(Rebuild(m, chunks), c)
  {
    assert (chunks + [c])[..|chunks|] == chunks;
  }

  /** Numbered calls are taken in order, all of them. */
  lemma {:induction false} PlaceIndexed(calls: seq<Call>, k: nat)
    requires k <= |calls|
    ensures Place(calls[..k], Indexed(calls)[k..]) == calls
    decreases |calls| - k
  {
    if k < |calls| {
      assert Indexed(calls)[k..][0] == IndexedCall(k, calls[k]) && Indexed(calls)[k..][1..] == Indexed(calls)[k + 1..];
      assert calls[..k] + [calls[k]] == calls[..k + 1];
      PlaceIndexed(calls, k + 1);
    } else {
      assert calls[..k] == calls;
    }
  }

  lemma PlaceAll(calls: seq<Call>)
    ensures Place([], Indexed(calls)) == calls
  {
    PlaceIndexed(calls, 0);
    assert calls[..0] == [] && Indexed(calls)[0..] == Indexed(calls);
  }

  const EMPTY := Message("", [], "")

  lemma {:induction false} RebuildTexts(events: seq<UpEvent>)
    ensures Rebuild(EMPTY, TextChunks(Texts(events))) == Message(TextOf(events), [], "")
  {
    if |events| == 0 {
      assert TextChunks(Texts(events)) == [];
    } else {
      var init, last := events[..|events| - 1], events[|events| - 1];
      RebuildTexts(init);
      assert events == init + [last];
      TextSnoc(init, last);
      if last.Content? && last.text != "" {
        TextChunksSnoc(Texts(init), last.text);
        RebuildSnoc(EMPTY, TextChunks(Texts(init)), ContentChunk(|Texts(init)| == 0, last.text));
      } else {
        assert TextOf(init) + "" == TextOf(init);
        assert Texts(events) == Texts(init);
      }
    }
  }

  lemma RebuildFinish(m: Message, payload: seq<Chunk>, reason: string)
    ensures Rebuild(m, payload + [FinishChunk(reason), DoneMarker]) == Rebuild(m, payload).(finishReason := reason)
  {
    assert payload + [FinishChunk(reason), DoneMarker] == payload + [FinishChunk(reason)] + [DoneMarker];
    RebuildSnoc(m, payload, FinishChunk(reason));
    RebuildSnoc(m, payload + [FinishChunk(reason)], DoneMarker);
  }

  lemma RebuildPayloads(events: seq<UpEvent>, calls: seq<Call>)
    ensures Rebuild(EMPTY, Payloads(Texts(events), calls)) == Message(TextOf(events), calls, "")
  {
    var texts, payload := TextChunks(Texts(events)), Payloads(Texts(events), calls);
    RebuildTexts(events);
    if |calls| == 0 {
      assert payload == texts;
    } else {
      PlaceAll(calls);
      RebuildSnoc(EMPTY, texts, ToolChunk(|Texts(events)| == 0, Indexed(calls)));
      assert payload == texts + [ToolChunk(|Texts(events)| == 0, Indexed(calls))];
    }
  }

  /** The round trip: a client of the chunks gets the text, the calls in order and the finish reason. */
  lemma ClientRebuildsChunks(events: seq<UpEvent>, calls: seq<Call>, reason: string)
    ensures Rebuild(EMPTY, Rendered(Texts(events), calls, reason)) == Message(TextOf(events), calls, reason)
  {
    RebuildPayloads(events, calls);
    RebuildFinish(EMPTY, Payloads(Texts(events), calls), reason);
  }

  /** All the streaming handler sends for some events. */
  function Stream(events: seq<UpEvent>, newId: nat -> string): seq<Chunk> {
    var calls := StreamedCalls(events, newId);
    Rendered(Texts(Body(events)), calls, FinishReason(UpstreamReason(events), calls))
  }

  /** It is a complete stream, and its client rebuilds the streamed message. */
  lemma StreamRebuilds(events: seq<UpEvent>, newId: nat -> string)
    ensures Complete(Stream(events, newId)) && Rebuild(EMPTY, Stream(events, newId)) == Streamed(events, newId)
  {
    var calls := StreamedCalls(events, newId);
    RenderedIsComplete(Texts(Body(events)), calls, FinishReason(UpstreamReason(events), calls));
    ClientRebuildsChunks(Body(events), calls, FinishReason(UpstreamReason(events), calls));
  }
}
