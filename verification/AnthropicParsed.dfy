/**
 The non-streaming Anthropic parser, and when it answers what the stream writer sends.  The writer
 sends one tool call per start event; the parser keeps one pending call, replaces it on a new start
 and files it at a FinishMetadata only.  The two also read the finish reason differently, and do
 different things with arguments that are empty or not JSON.
 */
module AnthropicParsed {
  import opened Collections
  import opened Text
  import opened Wrappers
  import opened AnthropicProtocol

  /** A call as the parser files it: `raw` is its argument text, if any fragment came at all. */
  datatype FiledCall = FiledCall(id: string, name: string, raw: Option<string>)

  // ----- what the parser finds, read off the events -----

  function FragmentOf(e: UpEvent): (fragment: Option<string>)
    ensures Given(fragment) == Fragment(e)
  {
    if e.ToolCall? && e.id == "" then e.args else None
  }

  function Joined(a: Option<string>, b: Option<string>): (both: Option<string>)
    ensures Given(both) == Given(a) + Given(b)
  {
    if a.None? && b.None? then None else Some(Given(a) + Given(b))
  }

  /** A FinishMetadata comes before the next start. */
  predicate Completed(rest: seq<UpEvent>) {
    |rest| > 0 && (rest[0].FinishMetadata? || (!StartsTool(rest[0]) && Completed(rest[1..])))
  }

  /** The fragments up to that FinishMetadata. */
  function ArgsToFinish(rest: seq<UpEvent>): Option<string> {
    if |rest| == 0 || rest[0].FinishMetadata? || StartsTool(rest[0]) then None
    else Joined(FragmentOf(rest[0]), ArgsToFinish(rest[1..]))
  }

  function ParsedCalls(events: seq<UpEvent>): seq<FiledCall> {
    if |events| == 0 then []
    else if StartsTool(events[0]) && Completed(events[1..]) then
      [FiledCall(events[0].id, events[0].name, ArgsToFinish(events[1..]))] + ParsedCalls(events[1..])
    else ParsedCalls(events[1..])
  }

  /** What the pending call still contributes. */
  function PendingCalls(current: Option<FiledCall>, rest: seq<UpEvent>): seq<FiledCall> {
    if current.Some? && Completed(rest) then [current.value.(raw := Joined(current.value.raw, ArgsToFinish(rest)))] else []
  }

  /** All that comes of a pending call and the events ahead. */
  function CallsFrom(current: Option<FiledCall>, rest: seq<UpEvent>): (calls: seq<FiledCall>)
    ensures current.None? ==> calls == ParsedCalls(rest)
  {
    PendingCalls(current, rest) + ParsedCalls(rest)
  }

  /** The last finish reason that is a string, blank or not. */
  function LastGiven(events: seq<UpEvent>): Option<string> {
    if |events| == 0 then None
    else if LastGiven(events[1..]).Some? then LastGiven(events[1..])
    else if events[0].FinishMetadata? then events[0].reason
    else None
  }

  function ReasonFrom(reason: string, rest: seq<UpEvent>): string {
    if LastGiven(rest).Some? then MapFinishReason(LastGiven(rest).value) else reason
  }

  // ----- the parser -----

  lemma JoinedParts(a: Option<string>, b: Option<string>, c: Option<string>)
    ensures Joined(Joined(a, b), c) == Joined(a, Joined(b, c)) && Joined(a, None) == a && Joined(None, c) == c
  {
    assert Given(a) + (Given(b) + Given(c)) == (Given(a) + Given(b)) + Given(c);
    assert Given(a) + "" == Given(a) && "" + Given(c) == Given(c);
  }

  /** A start replaces the pending call. */
  lemma AtStart(current: Option<FiledCall>, e: UpEvent, rest: seq<UpEvent>)
    requires StartsTool(e)
    ensures CallsFrom(current, [e] + rest) == CallsFrom(Some(FiledCall(e.id, e.name, None)), rest)
  {
    assert ([e] + rest)[1..] == rest;
    JoinedParts(None, None, ArgsToFinish(rest));
  }

  /** A FinishMetadata files it. */
  lemma AtFinish(current: Option<FiledCall>, e: UpEvent, rest: seq<UpEvent>)
    requires e.FinishMetadata?
    ensures CallsFrom(current, [e] + rest) == (if current.Some? then [current.value] else []) + CallsFrom(None, rest)
  {
    assert ([e] + rest)[1..] == rest;
    if current.Some? {
      JoinedParts(current.value.raw, None, None);
    }
  }

  /** Anything else adds its fragment, if it has one. */
  lemma InBetween(current: Option<FiledCall>, e: UpEvent, rest: seq<UpEvent>)
    requires !StartsTool(e) && !e.FinishMetadata?
    ensures current.None? ==> CallsFrom(current, [e] + rest) == CallsFrom(None, rest)
    ensures current.Some? ==>
              CallsFrom(current, [e] + rest) ==
              CallsFrom(Some(current.value.(raw := Joined(current.value.raw, FragmentOf(e)))), rest)
  {
    assert ([e] + rest)[1..] == rest;
    if current.Some? {
      JoinedParts(current.value.raw, FragmentOf(e), ArgsToFinish(rest));
    }
  }

  /** One event: the pending call after it and the call it files, if any. */
  method ParseCall(current: Option<FiledCall>, e: UpEvent, ghost rest: seq<UpEvent>)
    returns (current': Option<FiledCall>, done: seq<FiledCall>)
    ensures done + CallsFrom(current', rest) == CallsFrom(current, [e] + rest)
  {
    current', done := current, [];
    if StartsTool(e) {
      AtStart(current, e, rest);
      current' := Some(FiledCall(e.id, e.name, None));
    } else if e.FinishMetadata? {
      AtFinish(current, e, rest);
      if current.Some? {
        done, current' := [current.value], None;
      }
    } else {
      InBetween(current, e, rest);
      if e.ToolCall? && e.id == "" && current.Some? && e.args.Some? {
        var existing := if current.value.raw.Some? then current.value.raw.value else "";
        current' := Some(current.value.(raw := Some(existing + e.args.value)));
      }
      if current.Some? {
        JoinedParts(current.value.raw, None, None);
      }
    }
    assert [] + CallsFrom(current', rest) == CallsFrom(current', rest);
  }

  lemma ReasonOneMore(reason: string, e: UpEvent, rest: seq<UpEvent>)
    ensures ReasonFrom(reason, [e] + rest) ==
            ReasonFrom(if e.FinishMetadata? && e.reason.Some? then MapFinishReason(e.reason.value) else reason, rest)
  {
    assert ([e] + rest)[1..] == rest;
  }

  lemma TextOneMore(text: string, e: UpEvent, rest: seq<UpEvent>)
    ensures text + TextOf([e] + rest) == (if e.Content? then text + e.text else text) + TextOf(rest)
  {
    assert ([e] + rest)[1..] == rest;
    if e.Content? {
      assert text + (e.text + TextOf(rest)) == (text + e.text) + TextOf(rest);
    } else {
      assert "" + TextOf(rest) == TextOf(rest);
    }
  }

  /** What the parser will have found when it has read the events ahead. */
  ghost predicate Reading(events: seq<UpEvent>, rest: seq<UpEvent>, text: string, calls: seq<FiledCall>,
                          current: Option<FiledCall>, reason: string)
  {
    && text + TextOf(rest) == TextOf(events)
    && calls + CallsFrom(current, rest) == ParsedCalls(events)
    && ReasonFrom(reason, rest) == ReasonFrom(STOP_END_TURN, events)
  }

  lemma NothingRead(events: seq<UpEvent>, text: string, calls: seq<FiledCall>)
    requires |text| == 0 && |calls| == 0
    ensures Reading(events, events, text, calls, None, STOP_END_TURN)
  {
    assert text + TextOf(events) == TextOf(events) && calls + ParsedCalls(events) == ParsedCalls(events);
  }

  lemma AllRead(events: seq<UpEvent>, rest: seq<UpEvent>, text: string, calls: seq<FiledCall>,
                current: Option<FiledCall>, reason: string)
    requires Reading(events, rest, text, calls, current, reason) && |rest| == 0
    ensures text == TextOf(events) && calls == ParsedCalls(events) && reason == ReasonFrom(STOP_END_TURN, events)
  {
    assert text + TextOf(rest) == text && calls + CallsFrom(current, rest) == calls;
  }

  method ParseEvent(e: UpEvent, text: string, calls: seq<FiledCall>, current: Option<FiledCall>, reason: string,
                    ghost events: seq<UpEvent>, ghost rest: seq<UpEvent>)
    returns (text': string, calls': seq<FiledCall>, current': Option<FiledCall>, reason': string)
    requires Reading(events, [e] + rest, text, calls, current, reason)
    ensures Reading(events, rest, text', calls', current', reason')
  {
    text', reason' := text, reason;
    TextOneMore(text, e, rest);
    if e.Content? {
      text' := text + e.text;
    }
    ReasonOneMore(reason, e, rest);
    if e.FinishMetadata? && e.reason.Some? {
      reason' := MapFinishReason(e.reason.value);
    }
    var done;
    current', done := ParseCall(current, e, rest);
    Associative(calls, done, CallsFrom(current', rest));
    calls' := calls + done;
  }

  method ParseStream(events: seq<UpEvent>) returns (text: string, calls: seq<FiledCall>, reason: string)
    ensures text == TextOf(events) && calls == ParsedCalls(events) && reason == ReasonFrom(STOP_END_TURN, events)
  {
    text, calls, reason := "", [], STOP_END_TURN;
    var current: Option<FiledCall> := None;
    NothingRead(events, text, calls);
    assert events[0..] == events;
    for i := 0 to |events|
      invariant Reading(events, events[i..], text, calls, current, reason)
    {
      assert events[i..] == [events[i]] + events[i + 1..];
      text, calls, current, reason := ParseEvent(events[i], text, calls, current, reason, events, events[i + 1..]);
    }
    AllRead(events, events[|events|..], text, calls, current, reason);
  }

  // ----- the calls -----

  /** A call with its argument text, "" when there is none. */
  datatype RawCall = RawCall(id: string, name: string, raw: string)

  /** The calls that the writer sends, their arguments not trimmed yet. */
  function StartedCalls(events: seq<UpEvent>): seq<RawCall> {
    if |events| == 0 then []
    else if StartsTool(events[0]) then
      [RawCall(events[0].id, events[0].name, ArgsAfter(events[1..]))] + StartedCalls(events[1..])
    else StartedCalls(events[1..])
  }

  function ToolsFrom(calls: seq<RawCall>): (tools: seq<Block>)
    ensures |tools| == |calls|
    ensures forall i :: 0 <= i < |calls| ==> tools[i] == Tool(calls[i].id, calls[i].name, InputOf(calls[i].raw))
  {
    if |calls| == 0 then [] else [Tool(calls[0].id, calls[0].name, InputOf(calls[0].raw))] + ToolsFrom(calls[1..])
  }

  lemma {:induction false} StartedCallsAreSent(events: seq<UpEvent>)
    ensures ToolsOf(events) == ToolsFrom(StartedCalls(events))
  {
    if |events| > 0 {
      StartedCallsAreSent(events[1..]);
      if StartsTool(events[0]) {
        assert StartedCalls(events)[1..] == StartedCalls(events[1..]);
      }
    }
  }

  function AsText(call: FiledCall): RawCall {
    RawCall(call.id, call.name, Given(call.raw))
  }

  function AsTexts(calls: seq<FiledCall>): (texts: seq<RawCall>)
    ensures |texts| == |calls| && forall i :: 0 <= i < |calls| ==> texts[i] == AsText(calls[i])
  {
    if |calls| == 0 then [] else [AsText(calls[0])] + AsTexts(calls[1..])
  }

  /** No argument text between the first Content, if any, and the next FinishMetadata or start. */
  predicate Quiet(rest: seq<UpEvent>, flushed: bool) {
    |rest| == 0 || rest[0].FinishMetadata? || StartsTool(rest[0])
    || ((flushed ==> Fragment(rest[0]) == "") && Quiet(rest[1..], flushed || rest[0].Content?))
  }

  /** Calls come one at a time: each is followed by a FinishMetadata before the next starts, and text never
      splits its arguments. */
  predicate OneAtATime(events: seq<UpEvent>) {
    |events| == 0
    || ((StartsTool(events[0]) ==> Completed(events[1..]) && Quiet(events[1..], false)) && OneAtATime(events[1..]))
  }

  lemma {:induction false} QuietArgs(rest: seq<UpEvent>)
    ensures Given(ArgsToFinish(rest)) == "" <==> Quiet(rest, true)
    ensures Given(ArgsToFinish(rest)) == ArgsAfter(rest) <==> Quiet(rest, false)
  {
    if |rest| > 0 && !rest[0].FinishMetadata? && !StartsTool(rest[0]) {
      var head, tail := Fragment(rest[0]), Given(ArgsToFinish(rest[1..]));
      QuietArgs(rest[1..]);
      assert |head + tail| == |head| + |tail|;
      assert (head + tail)[|head|..] == tail && (head + ArgsAfter(rest[1..]))[|head|..] == ArgsAfter(rest[1..]);
    }
  }

  lemma {:induction false} ParsedNoMore(events: seq<UpEvent>)
    ensures |ParsedCalls(events)| <= |StartedCalls(events)|
  {
    if |events| > 0 {
      ParsedNoMore(events[1..]);
    }
  }

  /** The parser finds the calls of the stream, with the same argument text, exactly when they come one at a time. */
  lemma {:induction false} ParserAgreesExactlyWhen(events: seq<UpEvent>)
    ensures AsTexts(ParsedCalls(events)) == StartedCalls(events) <==> OneAtATime(events)
  {
    if |events| > 0 {
      var rest := events[1..];
      ParserAgreesExactlyWhen(rest);
      ParsedNoMore(rest);
      if StartsTool(events[0]) {
        QuietArgs(rest);
        var started, parsed := StartedCalls(events), AsTexts(ParsedCalls(events));
        assert started[0].raw == ArgsAfter(rest) && started[1..] == StartedCalls(rest);
        if Completed(rest) {
          assert ParsedCalls(events)[1..] == ParsedCalls(rest);
          assert parsed[0].raw == Given(ArgsToFinish(rest)) && parsed[1..] == AsTexts(ParsedCalls(rest));
        } else {
          assert |parsed| < |started|;
        }
      }
    }
  }

  /** Two calls started in a row: the stream has both, the parser the second only. */
  lemma ParallelCallsAreLost(a: string, b: string, name: string)
    requires a != "" && b != "" && name != ""
    ensures var events := [ToolCall(a, name, None), ToolCall(b, name, None), FinishMetadata(Some("tool_call"))];
            |StartedCalls(events)| == 2 && ParsedCalls(events) == [FiledCall(b, name, None)]
  {
    var events := [ToolCall(a, name, None), ToolCall(b, name, None), FinishMetadata(Some("tool_call"))];
    var two, one := [ToolCall(b, name, None), FinishMetadata(Some("tool_call"))], [FinishMetadata(Some("tool_call"))];
    assert events[1..] == two && two[1..] == one && one[1..] == [];
    assert ParsedCalls(one) == [] && StartedCalls(one) == [];
    assert ParsedCalls(two) == [FiledCall(b, name, None)] && |StartedCalls(two)| == 1;
  }

  // ----- the stop reason -----

  lemma {:induction false} LastGivenFacts(events: seq<UpEvent>)
    ensures LastReason(events) != "" ==> LastGiven(events).Some?
    ensures LastGiven(events).Some? && LastGiven(events).value != "" ==> LastGiven(events).value == LastReason(events)
  {
    if |events| > 0 {
      LastGivenFacts(events[1..]);
    }
  }

  /**
   The stop reasons are the same exactly when: without any reason from upstream, no tool call was
   started; with one, no blank reason came after it, or it means end_turn.
   */
  lemma ReasonsAgreeExactlyWhen(events: seq<UpEvent>)
    ensures ReasonFrom(STOP_END_TURN, events) == StopReason(events)
       <==> if LastReason(events) == "" then forall i :: 0 <= i < |events| ==> !StartsTool(events[i])
            else LastGiven(events) == Some(LastReason(events)) || MapFinishReason(LastReason(events)) == STOP_END_TURN
  {
    LastGivenFacts(events);
    ToolIffStarted(events);
  }

  /** A blank reason after a proper one: the parser starts over at end_turn, the stream keeps the proper one. */
  lemma BlankReasonResets()
    ensures var events := [FinishMetadata(Some("length")), FinishMetadata(Some(""))];
            ReasonFrom(STOP_END_TURN, events) == STOP_END_TURN && StopReason(events) == STOP_MAX_TOKENS
  {
    var events, blank := [FinishMetadata(Some("length")), FinishMetadata(Some(""))], [FinishMetadata(Some(""))];
    assert events[1..] == blank && |blank[1..]| == 0;
    assert LastGiven(blank[1..]) == None && LastReason(blank[1..]) == "";
    assert LastGiven(blank) == blank[0].reason && LastReason(blank) == "";
    assert LastGiven(events) == Some("") && LastReason(events) == "length";
  }

  // ----- the inputs -----

  /** The input of a tool call as a client gets it: an object, none at all, the parser's wrapping of text that is
      not an object, or text that a client of the stream cannot read. */
  datatype Input<J> = Read(json: J) | Absent | Wrapped(raw: string) | Unreadable(text: string)

  datatype Use<J> = Use(id: string, name: string, input: Input<J>)

  /** Parsing objects: `{}` is the empty one, blank text is none, and the white space around one does not matter.
      White space that JSON does not know makes text unreadable, until it is trimmed. */
  ghost predicate ParsesObjects<J(!new)>(parse: string -> Option<J>, empty: J) {
    && parse("{}") == Some(empty)
    && forall text ::
         && (parse(text).Some? ==> parse(TrimSpace(text)) == parse(text))
         && (TrimSpace(text) == "" ==> parse(text).None?)
  }

  /** The parser's answer leaves out an input without entries, whether none came or an empty object. */
  function FiledUse<J(==)>(call: FiledCall, parse: string -> Option<J>, empty: J): Use<J> {
    Use(call.id, call.name,
        if call.raw.None? || parse(call.raw.value) == Some(empty) then Absent
        else if parse(call.raw.value).Some? then Read(parse(call.raw.value).value)
        else Wrapped(call.raw.value))
  }

  function SentUse<J>(tool: Block, parse: string -> Option<J>): Use<J>
    requires tool.Tool?
  {
    Use(tool.id, tool.name, if parse(tool.input).Some? then Read(parse(tool.input).value) else Unreadable(tool.input))
  }

  function FiledUses<J(==)>(calls: seq<FiledCall>, parse: string -> Option<J>, empty: J): seq<Use<J>> {
    seq(|calls|, i requires 0 <= i < |calls| => FiledUse(calls[i], parse, empty))
  }

  function SentUses<J>(tools: seq<Block>, parse: string -> Option<J>): seq<Use<J>>
    requires forall i :: 0 <= i < |tools| ==> tools[i].Tool?
  {
    seq(|tools|, i requires 0 <= i < |tools| => SentUse(tools[i], parse))
  }

  /** The call came with text that is an object with entries. */
  predicate HasEntries<J(==)>(call: FiledCall, parse: string -> Option<J>, empty: J) {
    call.raw.Some? && parse(call.raw.value).Some? && parse(call.raw.value) != Some(empty)
  }

  lemma UseAgreesExactlyWhen<J(!new)>(call: FiledCall, parse: string -> Option<J>, empty: J)
    requires ParsesObjects(parse, empty)
    ensures FiledUse(call, parse, empty) == SentUse(Tool(call.id, call.name, InputOf(Given(call.raw))), parse)
       <==> HasEntries(call, parse, empty)
  {
    var text := Given(call.raw);
    assert parse(text).Some? ==> parse(TrimSpace(text)) == parse(text);
  }

  ghost predicate AllHaveEntries<J>(calls: seq<FiledCall>, parse: string -> Option<J>, empty: J) {
    forall i :: 0 <= i < |calls| ==> HasEntries(calls[i], parse, empty)
  }

  /** On calls that come one at a time the inputs agree exactly when every call came with an object that has entries. */
  lemma InputsAgreeExactlyWhen<J(!new)>(events: seq<UpEvent>, parse: string -> Option<J>, empty: J)
    requires ParsesObjects(parse, empty) && OneAtATime(events)
    ensures FiledUses(ParsedCalls(events), parse, empty) == SentUses(ToolsFrom(StartedCalls(events)), parse)
       <==> AllHaveEntries(ParsedCalls(events), parse, empty)
  {
    var filed, started := ParsedCalls(events), StartedCalls(events);
    var left, right := FiledUses(filed, parse, empty), SentUses(ToolsFrom(started), parse);
    ParserAgreesExactlyWhen(events);
    assert |left| == |right| == |filed|;
    forall i | 0 <= i < |filed| ensures left[i] == right[i] <==> HasEntries(filed[i], parse, empty) {
      assert AsTexts(filed)[i] == AsText(filed[i]);
      UseAgreesExactlyWhen(filed[i], parse, empty);
    }
  }

  lemma OneBareCall(id: string, name: string, finish: UpEvent) returns (calls: seq<FiledCall>, started: seq<RawCall>)
    requires id != "" && name != "" && finish.FinishMetadata?
    ensures calls == ParsedCalls([ToolCall(id, name, None), finish]) == [FiledCall(id, name, None)]
    ensures started == StartedCalls([ToolCall(id, name, None), finish]) == [RawCall(id, name, "")]
    ensures OneAtATime([ToolCall(id, name, None), finish])
  {
    var events, rest := [ToolCall(id, name, None), finish], [finish];
    calls, started := ParsedCalls(events), StartedCalls(events);
    assert events[1..] == rest && |rest[1..]| == 0;
    assert |ParsedCalls(rest)| == 0 && |StartedCalls(rest)| == 0 && OneAtATime(rest);
  }

  /** A call without arguments: the stream's client reads an empty object, the parser's client gets no input. */
  lemma EmptyInputIsLeftOut<J(!new)>(id: string, name: string, parse: string -> Option<J>, empty: J)
    requires id != "" && name != "" && ParsesObjects(parse, empty)
    ensures var events := [ToolCall(id, name, None), FinishMetadata(Some("tool_call"))];
      && OneAtATime(events)
      && FiledUses(ParsedCalls(events), parse, empty) == [Use(id, name, Absent)]
      && SentUses(ToolsFrom(StartedCalls(events)), parse) == [Use(id, name, Read(empty))]
  {
    var finish := FinishMetadata(Some("tool_call"));
    var calls, started := OneBareCall(id, name, finish);
    var filed := FiledCall(id, name, None);
    assert calls == [filed] && FiledUse(filed, parse, empty) == Use(id, name, Absent);
    assert InputOf("") == "{}" && ToolsFrom(started) == [Tool(id, name, "{}")];
    assert SentUse(Tool(id, name, "{}"), parse) == Use(id, name, Read(empty));
  }

  // ----- the whole answer -----

  datatype Answer<J> = Answer(text: string, uses: seq<Use<J>>, stopReason: string)

  function ParsedAnswer<J(==)>(events: seq<UpEvent>, parse: string -> Option<J>, empty: J): Answer<J> {
    Answer(TextOf(events), FiledUses(ParsedCalls(events), parse, empty), ReasonFrom(STOP_END_TURN, events))
  }

  /** What a client makes of a whole stream. */
  function ClientAnswer<J>(trace: seq<OutEvent>, parse: string -> Option<J>): Answer<J>
    requires |trace| >= 2 && trace[|trace| - 2].MessageDelta?
  {
    Answer(AllText(Decode([], trace)), SentUses(AllTools(Decode([], trace)), parse), trace[|trace| - 2].stopReason)
  }

  lemma ClientAnswerOf<J>(events: seq<UpEvent>, parse: string -> Option<J>)
    ensures |Trace(events)| >= 2 && Trace(events)[|Trace(events)| - 2] == MessageDelta(StopReason(events))
    ensures ClientAnswer(Trace(events), parse) ==
            Answer(TextOf(events), SentUses(ToolsFrom(StartedCalls(events)), parse), StopReason(events))
  {
    ClientRebuildsMessage(events);
    StartedCallsAreSent(events);
  }

  /**
   On calls that come one at a time the client of the stream and the client of the parser have the
   same answer exactly when every call came with an object that has entries and the stop reasons
   agree.
   */
  lemma AnswersAgreeExactlyWhen<J(!new)>(events: seq<UpEvent>, parse: string -> Option<J>, empty: J)
    requires ParsesObjects(parse, empty) && OneAtATime(events)
    ensures |Trace(events)| >= 2 && Trace(events)[|Trace(events)| - 2].MessageDelta?
    ensures ParsedAnswer(events, parse, empty) == ClientAnswer(Trace(events), parse)
       <==> && AllHaveEntries(ParsedCalls(events), parse, empty)
            && if LastReason(events) == "" then forall i :: 0 <= i < |events| ==> !StartsTool(events[i])
               else LastGiven(events) == Some(LastReason(events)) || MapFinishReason(LastReason(events)) == STOP_END_TURN
  {
    ClientAnswerOf(events, parse);
    InputsAgreeExactlyWhen(events, parse, empty);
    ReasonsAgreeExactlyWhen(events);
  }

  lemma {:induction false} AllCompleted(events: seq<UpEvent>)
    requires |ParsedCalls(events)| == |StartedCalls(events)|
    ensures forall i :: 0 <= i < |events| && StartsTool(events[i]) ==> Completed(events[i + 1..])
  {
    if |events| > 0 {
      ParsedNoMore(events[1..]);
      AllCompleted(events[1..]);
      forall i | 0 < i < |events| && StartsTool(events[i]) ensures Completed(events[i + 1..]) {
        assert StartsTool(events[1..][i - 1]);
        assert events[1..][i - 1 + 1..] == events[i + 1..];
      }
    }
  }

  /** Whatever the events, the text is the same, and an answer with the same calls and reason has none lost. */
  lemma AgreeingAnswersLoseNothing<J(!new)>(events: seq<UpEvent>, parse: string -> Option<J>, empty: J)
    ensures |Trace(events)| >= 2 && Trace(events)[|Trace(events)| - 2].MessageDelta?
    ensures ParsedAnswer(events, parse, empty).text == ClientAnswer(Trace(events), parse).text
    ensures ParsedAnswer(events, parse, empty).uses == ClientAnswer(Trace(events), parse).uses ==>
            forall i :: 0 <= i < |events| && StartsTool(events[i]) ==> Completed(events[i + 1..])
  {
    ClientAnswerOf(events, parse);
    if ParsedAnswer(events, parse, empty).uses == ClientAnswer(Trace(events), parse).uses {
      assert |FiledUses(ParsedCalls(events), parse, empty)| == |ParsedCalls(events)|;
      assert |SentUses(ToolsFrom(StartedCalls(events)), parse)| == |StartedCalls(events)|;
      AllCompleted(events);
    }
  }
}
