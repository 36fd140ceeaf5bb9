/**
 The two Anthropic answers from the same upstream body.  The stream stops at an end marker; the
 non-streaming parser skips the line `data: end`, cannot read any other marker, and goes on.
 */
module AnthropicBody {
  import opened Collections
  import opened Text
  import opened Wrappers
  import opened AnthropicProtocol
  import opened AnthropicParsed
  import opened StreamLines

  const END_LINE := "data: end"

  /** What the parser makes of a line.  A `null` is an object without fields to Go, hence no event to either side. */
  function Found(raw: string, parse: string -> Option<UpEvent>): (events: seq<UpEvent>)
    ensures |events| <= 1
  {
    var line := TrimSpace(raw);
    if line == "" || line == END_LINE || !(PREFIX <= line) then []
    else
      var data := line[|PREFIX|..];
      if TrimSpace(data) != "null" && parse(data).Some? then [parse(data).value] else []
  }

  /** All that the parser reads in a body. */
  function FoundIn(lines: seq<string>, parse: string -> Option<UpEvent>): seq<UpEvent> {
    if |lines| == 0 then [] else Found(lines[0], parse) + FoundIn(lines[1..], parse)
  }

  /** The lines after the first end marker. */
  function AfterEnd(lines: seq<string>): seq<string> {
    if |lines| == 0 then [] else if Classify(lines[0]).Stop? then lines[1..] else AfterEnd(lines[1..])
  }

  /** Parsing events: markers and blank text are none, and the white space around one does not matter. */
  ghost predicate ParsesEvents(parse: string -> Option<UpEvent>) {
    forall text ::
      && (parse(text).Some? ==> parse(TrimSpace(text)) == parse(text))
      && (EndMarker(TrimSpace(text)) || TrimSpace(text) == "" ==> parse(text).None?)
  }

  /** No payload up to the end marker hides behind white space that JSON does not know. */
  predicate PlainPayloads(lines: seq<string>, parse: string -> Option<UpEvent>) {
    |lines| == 0 || Classify(lines[0]).Stop?
    || (|Heard(Classify(lines[0]), parse)| <= |Found(lines[0], parse)| && PlainPayloads(lines[1..], parse))
  }

  // ----- the parser -----

  lemma FoundNext(events: seq<UpEvent>, lines: seq<string>, i: nat, parse: string -> Option<UpEvent>)
    requires i <= |lines|
    ensures events + FoundIn(lines[i..], parse) ==
            if i == |lines| then events else (events + Found(lines[i], parse)) + FoundIn(lines[i + 1..], parse)
  {
    if i < |lines| {
      assert lines[i..][0] == lines[i] && lines[i..][1..] == lines[i + 1..];
      Associative(events, Found(lines[i], parse), FoundIn(lines[i + 1..], parse));
    }
  }

  /** One more line gives one more event if its payload parses, whatever came before; the end line is only skipped. */
  lemma {:induction false} FoundLineByLine(lines: seq<string>, line: string, parse: string -> Option<UpEvent>)
    ensures FoundIn(lines + [line], parse) == FoundIn(lines, parse) + Found(line, parse)
    ensures |lines| == 0 ==> |FoundIn(lines, parse)| == 0
  {
    if |lines| == 0 {
      assert lines + [line] == [line] && |[line][1..]| == 0;
      assert Found(line, parse) + FoundIn([line][1..], parse) == Found(line, parse);
    } else {
      assert (lines + [line])[1..] == lines[1..] + [line];
      FoundLineByLine(lines[1..], line, parse);
      Associative(Found(lines[0], parse), FoundIn(lines[1..], parse), Found(line, parse));
    }
  }

  method ReadEvents(lines: seq<string>, parse: string -> Option<UpEvent>) returns (events: seq<UpEvent>)
    ensures events == FoundIn(lines, parse)
  {
    events := [];
    for i := 0 to |lines|
      invariant events + FoundIn(lines[i..], parse) == FoundIn(lines, parse)
    {
      FoundNext(events, lines, i, parse);
      events := events + Found(lines[i], parse);
    }
    FoundNext(events, lines, |lines|, parse);
  }

  method ParseBody(lines: seq<string>, parse: string -> Option<UpEvent>)
    returns (text: string, calls: seq<FiledCall>, reason: string)
    ensures var events := FoundIn(lines, parse);
      text == TextOf(events) && calls == ParsedCalls(events) && reason == ReasonFrom(STOP_END_TURN, events)
  {
    var events := ReadEvents(lines, parse);
    text, calls, reason := ParseStream(events);
  }

  // ----- what each side reads -----

  lemma LineReadAlike(raw: string, parse: string -> Option<UpEvent>)
    requires ParsesEvents(parse)
    ensures Classify(raw).Stop? ==> |Found(raw, parse)| == 0
    ensures !Classify(raw).Stop? && |Heard(Classify(raw), parse)| <= |Found(raw, parse)| ==>
              Heard(Classify(raw), parse) == Found(raw, parse)
  {
    var line := TrimSpace(raw);
    if PREFIX <= line {
      var data := line[|PREFIX|..];
      assert parse(data).Some? ==> parse(TrimSpace(data)) == parse(data);
      assert EndMarker(TrimSpace(data)) || TrimSpace(data) == "" ==> parse(data).None?;
    }
  }

  /** The first line: an end marker, or the same to both. */
  lemma FirstLineRead(lines: seq<string>, parse: string -> Option<UpEvent>) returns (end: bool, read: seq<UpEvent>)
    requires |lines| > 0 && ParsesEvents(parse) && PlainPayloads(lines, parse)
    ensures end ==> |Events(lines, parse)| == 0 && FoundIn(lines, parse) == FoundIn(AfterEnd(lines), parse)
    ensures !end ==> PlainPayloads(lines[1..], parse) && AfterEnd(lines) == AfterEnd(lines[1..])
    ensures !end ==> Events(lines, parse) == read + Events(lines[1..], parse)
    ensures !end ==> FoundIn(lines, parse) == read + FoundIn(lines[1..], parse)
  {
    end, read := Classify(lines[0]).Stop?, Found(lines[0], parse);
    LineReadAlike(lines[0], parse);
    assert Classified(lines)[1..] == Classified(lines[1..]);
    if end {
      assert read + FoundIn(lines[1..], parse) == FoundIn(lines[1..], parse);
    }
  }

  /** The parser reads what the stream reads, and on beyond an end marker. */
  lemma {:induction false} ParserReadsOn(lines: seq<string>, parse: string -> Option<UpEvent>)
    requires ParsesEvents(parse) && PlainPayloads(lines, parse)
    ensures FoundIn(lines, parse) == Events(lines, parse) + FoundIn(AfterEnd(lines), parse)
  {
    if |lines| > 0 {
      var end, read := FirstLineRead(lines, parse);
      if end {
        assert Events(lines, parse) + FoundIn(lines, parse) == FoundIn(lines, parse);
      } else {
        ParserReadsOn(lines[1..], parse);
        Associative(read, Events(lines[1..], parse), FoundIn(AfterEnd(lines), parse));
      }
    }
  }

  /** So both read the same events exactly when none follows an end marker. */
  lemma BodiesReadAlikeExactlyWhen(lines: seq<string>, parse: string -> Option<UpEvent>)
    requires ParsesEvents(parse) && PlainPayloads(lines, parse)
    ensures FoundIn(lines, parse) == Events(lines, parse) <==> FoundIn(AfterEnd(lines), parse) == []
  {
    ParserReadsOn(lines, parse);
    if FoundIn(lines, parse) == Events(lines, parse) {
      assert |FoundIn(lines, parse)| == |Events(lines, parse)| + |FoundIn(AfterEnd(lines), parse)|;
    }
  }

  // ----- more events at the end -----

  lemma {:induction false} TextMore(a: seq<UpEvent>, b: seq<UpEvent>)
    ensures TextOf(a + b) == TextOf(a) + TextOf(b)
  {
    if |a| == 0 {
      assert a + b == b && "" + TextOf(b) == TextOf(b);
    } else {
      TextMore(a[1..], b);
      assert (a + b)[0] == a[0] && (a + b)[1..] == a[1..] + b;
      Associative(if a[0].Content? then a[0].text else "", TextOf(a[1..]), TextOf(b));
    }
  }

  lemma {:induction false} LastGivenMore(a: seq<UpEvent>, b: seq<UpEvent>)
    ensures LastGiven(a + b) == if LastGiven(b).Some? then LastGiven(b) else LastGiven(a)
  {
    if |a| == 0 {
      assert a + b == b;
    } else {
      LastGivenMore(a[1..], b);
      assert (a + b)[0] == a[0] && (a + b)[1..] == a[1..] + b;
    }
  }

  lemma {:induction false} CompletedMore(rest: seq<UpEvent>, more: seq<UpEvent>)
    requires Completed(rest)
    ensures Completed(rest + more) && ArgsToFinish(rest + more) == ArgsToFinish(rest)
  {
    assert (rest + more)[0] == rest[0] && (rest + more)[1..] == rest[1..] + more;
    if !rest[0].FinishMetadata? {
      CompletedMore(rest[1..], more);
    }
  }

  /** When every call is completed, later events only add calls. */
  lemma {:induction false} CallsMore(a: seq<UpEvent>, b: seq<UpEvent>)
    requires OneAtATime(a)
    ensures ParsedCalls(a + b) == ParsedCalls(a) + ParsedCalls(b)
  {
    if |a| == 0 {
      assert a + b == b;
    } else {
      CallsMore(a[1..], b);
      assert (a + b)[0] == a[0] && (a + b)[1..] == a[1..] + b;
      if StartsTool(a[0]) {
        CompletedMore(a[1..], b);
        var call := FiledCall(a[0].id, a[0].name, ArgsToFinish(a[1..]));
        assert [call] + (ParsedCalls(a[1..]) + ParsedCalls(b)) == ([call] + ParsedCalls(a[1..])) + ParsedCalls(b);
      }
    }
  }

  // ----- the whole answer -----

  /** The stop reason of the stream for `events` is the one the parser ends with if it reads `late` as well. */
  ghost predicate SameReason(events: seq<UpEvent>, late: seq<UpEvent>) {
    if LastGiven(late).Some? then MapFinishReason(LastGiven(late).value) == StopReason(events)
    else if LastReason(events) == "" then forall i :: 0 <= i < |events| ==> !StartsTool(events[i])
    else LastGiven(events) == Some(LastReason(events)) || MapFinishReason(LastReason(events)) == STOP_END_TURN
  }

  lemma SameReasonMeans(events: seq<UpEvent>, late: seq<UpEvent>)
    ensures ReasonFrom(STOP_END_TURN, events + late) == StopReason(events) <==> SameReason(events, late)
  {
    LastGivenMore(events, late);
    ReasonsAgreeExactlyWhen(events);
  }

  lemma SameTextMeans(events: seq<UpEvent>, late: seq<UpEvent>)
    ensures TextOf(events + late) == TextOf(events) <==> TextOf(late) == ""
  {
    TextMore(events, late);
    assert |TextOf(events) + TextOf(late)| == |TextOf(events)| + |TextOf(late)|;
  }

  lemma SameUsesMean<J(!new)>(events: seq<UpEvent>, late: seq<UpEvent>, parse: string -> Option<J>, empty: J)
    requires ParsesObjects(parse, empty) && OneAtATime(events)
    ensures FiledUses(ParsedCalls(events + late), parse, empty) == SentUses(ToolsFrom(StartedCalls(events)), parse)
       <==> |ParsedCalls(late)| == 0 && AllHaveEntries(ParsedCalls(events), parse, empty)
  {
    CallsMore(events, late);
    ParserAgreesExactlyWhen(events);
    var before, after := ParsedCalls(events), ParsedCalls(late);
    assert |FiledUses(before + after, parse, empty)| == |before| + |after|;
    assert |SentUses(ToolsFrom(StartedCalls(events)), parse)| == |before|;
    if |after| == 0 {
      assert before + after == before;
      InputsAgreeExactlyWhen(events, parse, empty);
    }
  }

  /**
   From the lines of a body to both clients: when the calls before the end marker come one at a time
   and no payload hides behind odd white space, the answers are the same exactly when what follows
   the marker holds no text and no complete call, every call came with an object that has entries,
   and the stop reasons agree.
   */
  lemma BodyAnswersAgreeExactlyWhen<J(!new)>(lines: seq<string>, events: seq<UpEvent>, parseEvent: string -> Option<UpEvent>,
                                             parse: string -> Option<J>, empty: J)
    requires ParsesEvents(parseEvent) && PlainPayloads(lines, parseEvent) && ParsesObjects(parse, empty)
    requires events == Events(lines, parseEvent) && OneAtATime(events)
    ensures |Trace(events)| >= 2 && Trace(events)[|Trace(events)| - 2].MessageDelta?
    ensures var late := FoundIn(AfterEnd(lines), parseEvent);
      ParsedAnswer(FoundIn(lines, parseEvent), parse, empty) == ClientAnswer(Trace(events), parse)
      <==> TextOf(late) == "" && |ParsedCalls(late)| == 0
           && AllHaveEntries(ParsedCalls(events), parse, empty) && SameReason(events, late)
  {
    var late := FoundIn(AfterEnd(lines), parseEvent);
    ParserReadsOn(lines, parseEvent);
    ClientAnswerOf(events, parse);
    SameTextMeans(events, late);
    SameUsesMean(events, late, parse, empty);
    SameReasonMeans(events, late);
  }

  lemma FoundPayload(payload: string, e: UpEvent, parse: string -> Option<UpEvent>)
    requires Sendable(payload) && parse(payload) == Some(e)
    ensures Found(PREFIX + payload, parse) == [e]
  {
    TrimmedPayload(payload);
    var line := PREFIX + payload;
    assert line[|PREFIX|..] == payload && line != END_LINE;
  }

  /** An event after the line `data: end` is read by the parser and not by the stream. */
  lemma ParserReadsBeyondTheEnd(payload: string, e: UpEvent, parse: string -> Option<UpEvent>)
    requires ParsesEvents(parse) && Sendable(payload) && parse(payload) == Some(e)
    ensures var lines := [END_LINE, PREFIX + payload];
      Events(lines, parse) == [] && FoundIn(lines, parse) == [e]
  {
    var lines, last := [END_LINE, PREFIX + payload], [PREFIX + payload];
    EndLineStops();
    LineReadAlike(END_LINE, parse);
    FoundPayload(payload, e, parse);
    assert Classified(lines)[0].Stop?;
    assert lines[1..] == last && |last[1..]| == 0;
    assert FoundIn(last, parse) == [e] + FoundIn(last[1..], parse) == [e];
  }
}
