/**
 The OpenAI side: two state machines, written apart, read the same upstream events.  The
 streaming one keeps a current tool call and sends all calls in one chunk at the end; the other
 collects calls directly and keeps legacy function calls aside.  This module gives both as
 functions on values and proves exactly when they build the same message.
 */
module OpenAIProtocol {
  import opened Wrappers

  /** An upstream event; a field that is absent or not a string reads as "". */
  datatype UpEvent =
    | Content(text: string)
    | ToolCall(id: string, name: string, args: string)
    | FunctionCall(name: string, args: string)
    | FinishMetadata(reason: string)
    | Other

  datatype Call = Call(id: string, name: string, args: string)

  datatype Message = Message(text: string, calls: seq<Call>, finishReason: string)

  const FINISH_STOP := "stop"
  const FINISH_TOOL_CALLS := "tool_calls"
  const FINISH_LENGTH := "length"

  function MapFinishReason(reason: string): string {
    if reason == "tool_call" then FINISH_TOOL_CALLS
    else if reason == "length" then FINISH_LENGTH
    else FINISH_STOP
  }

  function FinishReason(upstream: string, calls: seq<Call>): string {
    if upstream != "" then MapFinishReason(upstream)
    else if calls != [] then FINISH_TOOL_CALLS
    else FINISH_STOP
  }

  /** Both machines stop at the first FinishMetadata. */
  function Body(events: seq<UpEvent>): seq<UpEvent> {
    if |events| == 0 || events[0].FinishMetadata? then [] else [events[0]] + Body(events[1..])
  }

  predicate Finished(events: seq<UpEvent>) {
    exists i :: 0 <= i < |events| && events[i].FinishMetadata?
  }

  function UpstreamReason(events: seq<UpEvent>): string {
    if |events| == 0 then ""
    else if events[0].FinishMetadata? then events[0].reason
    else UpstreamReason(events[1..])
  }

  function TextOf(events: seq<UpEvent>): string {
    if |events| == 0 then ""
    else (if events[0].Content? then events[0].text else "") + TextOf(events[1..])
  }

  // ----- the streaming machine -----

  /** The calls completed, the call being received, and how many ids have been generated. */
  datatype Streaming = Streaming(done: seq<Call>, current: Option<Call>, generated: nat) {
    function Calls(): seq<Call> {
      done + (if current.Some? then [current.value] else [])
    }
  }

  function Appended(s: Streaming, args: string): Streaming {
    match s.current
    case None => s
    case Some(c) => s.(current := Some(c.(args := c.args + args)))
  }

  function StreamStep(s: Streaming, e: UpEvent, newId: nat -> string): Streaming {
    match e
    case ToolCall(id, name, args) =>
      if id != "" then
        s.(done := s.Calls(), current := if name != "" then Some(Call(id, name, "")) else None)
      else Appended(s, args)
    case FunctionCall(name, args) =>
      if name != "" then
        Streaming(s.Calls(), Some(Call(newId(s.generated), name, "")), s.generated + 1)
      else Appended(s, args)
    case _ => s
  }

  function StreamRun(s: Streaming, events: seq<UpEvent>, newId: nat -> string): Streaming
    decreases |events|
  {
    if |events| == 0 then s else StreamRun(StreamStep(s, events[0], newId), events[1..], newId)
  }

  function StreamedCalls(events: seq<UpEvent>, newId: nat -> string): seq<Call> {
    StreamRun(Streaming([], None, 0), Body(events), newId).Calls()
  }

  /** The message a client of the stream should rebuild. */
  function Streamed(events: seq<UpEvent>, newId: nat -> string): Message {
    var calls := StreamedCalls(events, newId);
    Message(TextOf(Body(events)), calls, FinishReason(UpstreamReason(events), calls))
  }

  // ----- the non-streaming machine -----

  /** The calls collected, and the legacy function call aside, which has no id yet. */
  datatype Collecting = Collecting(calls: seq<Call>, legacyName: string, legacyArgs: string, generated: nat)

  function Finalized(n: Collecting, newId: nat -> string): Collecting {
    if n.legacyName == "" then n
    else Collecting(n.calls + [Call(newId(n.generated), n.legacyName, n.legacyArgs)], "", "", n.generated + 1)
  }

  function ExtendLast(calls: seq<Call>, args: string): seq<Call>
    requires calls != []
  {
    var last := calls[|calls| - 1];
    calls[|calls| - 1 := last.(args := last.args + args)]
  }

  function CollectStep(n: Collecting, e: UpEvent, newId: nat -> string): Collecting {
    match e
    case ToolCall(id, name, args) =>
      if id != "" then
        var m := Finalized(n, newId);
        if name != "" then m.(calls := m.calls + [Call(id, name, "")]) else m
      else if n.calls != [] then n.(calls := ExtendLast(n.calls, args))
      else n.(legacyArgs := n.legacyArgs + args)
    case FunctionCall(name, args) =>
      if name != "" then Finalized(n, newId).(legacyName := name, legacyArgs := "" + args)
      else if n.legacyName != "" then n.(legacyArgs := n.legacyArgs + args)
      else n
    case _ => n
  }

  function CollectRun(n: Collecting, events: seq<UpEvent>, newId: nat -> string): Collecting
    decreases |events|
  {
    if |events| == 0 then n else CollectRun(CollectStep(n, events[0], newId), events[1..], newId)
  }

  function CollectedCalls(events: seq<UpEvent>, newId: nat -> string): seq<Call> {
    Finalized(CollectRun(Collecting([], "", "", 0), Body(events), newId), newId).calls
  }

  function Collected(events: seq<UpEvent>, newId: nat -> string): Message {
    var calls := CollectedCalls(events, newId);
    Message(TextOf(Body(events)), calls, FinishReason(UpstreamReason(events), calls))
  }

  // ----- runs grow at the end -----

  lemma {:induction false} StreamSnoc(s: Streaming, events: seq<UpEvent>, e: UpEvent, newId: nat -> string)
    ensures StreamRun(s, events + [e], newId) == StreamStep(StreamRun(s, events, newId), e, newId)
    decreases |events|
  {
    if events == [] {
      assert ([] + [e])[1..] == [];
    } else {
      assert (events + [e])[1..] == events[1..] + [e];
      StreamSnoc(StreamStep(s, events[0], newId), events[1..], e, newId);
    }
  }

  lemma {:induction false} CollectSnoc(n: Collecting, events: seq<UpEvent>, e: UpEvent, newId: nat -> string)
    ensures CollectRun(n, events + [e], newId) == CollectStep(CollectRun(n, events, newId), e, newId)
    decreases |events|
  {
    if events == [] {
      assert ([] + [e])[1..] == [];
    } else {
      assert (events + [e])[1..] == events[1..] + [e];
      CollectSnoc(CollectStep(n, events[0], newId), events[1..], e, newId);
    }
  }

  lemma {:induction false} TextSnoc(events: seq<UpEvent>, e: UpEvent)
    ensures TextOf(events + [e]) == TextOf(events) + (if e.Content? then e.text else "")
  {
    if events == [] {
      assert ([] + [e])[1..] == [];
    } else {
      assert (events + [e])[1..] == events[1..] + [e];
      TextSnoc(events[1..], e);
      var head, body, last := (if events[0].Content? then events[0].text else ""), TextOf(events[1..]), (if e.Content? then e.text else "");
      assert head + (body + last) == (head + body) + last;
    }
  }

  /** The part of the events both machines read, and why they stop. */
  lemma {:induction false} BodyFacts(events: seq<UpEvent>)
    ensures |Body(events)| <= |events| && Body(events) == events[..|Body(events)|]
    ensures forall e :: e in Body(events) ==> !e.FinishMetadata?
    ensures Finished(events) <==> |Body(events)| < |events|
    ensures Finished(events) ==>
              events[|Body(events)|].FinishMetadata? && UpstreamReason(events) == events[|Body(events)|].reason
    ensures !Finished(events) ==> UpstreamReason(events) == ""
  {
    if events != [] {
      BodyFacts(events[1..]);
      if i :| 0 <= i < |events| - 1 && events[1..][i].FinishMetadata? {
        assert events[i + 1].FinishMetadata?;
      } else if !events[0].FinishMetadata? {
        assert forall i :: 1 <= i < |events| ==> events[i] == events[1..][i - 1];
      }
    }
  }

  // ----- tool calls only: agreement up to stray fragments -----

  predicate NoFunctionCalls(events: seq<UpEvent>) {
    forall i :: 0 <= i < |events| ==> !events[i].FunctionCall?
  }

  /**
   No argument text comes after an id without a name when a call is already there.  `open` says
   whether the last id came with a name, `any` whether some id did.
   */
  predicate NoStrayArgs(events: seq<UpEvent>, open: bool, any: bool) {
    |events| == 0 ||
    (var e := events[0];
     if !e.ToolCall? then NoStrayArgs(events[1..], open, any)
     else if e.id != "" then NoStrayArgs(events[1..], e.name != "", any || e.name != "")
     else (e.args != "" && any ==> open) && NoStrayArgs(events[1..], open, any))
  }

  /** The machines hold the same calls. */
  ghost predicate InStep(s: Streaming, n: Collecting) {
    s.Calls() == n.calls && n.legacyName == ""
  }

  /** Some completed call is longer on the non-streaming side; the streaming side has let go of it. */
  ghost predicate Apart(s: Streaming, n: Collecting) {
    && n.legacyName == "" && |s.Calls()| == |n.calls|
    && exists i :: 0 <= i < |s.done| && |s.done[i].args| < |n.calls[i].args|
  }

  /** Text that the two sides would file apart. */
  predicate Strays(s: Streaming, n: Collecting, e: UpEvent) {
    e.ToolCall? && e.id == "" && e.args != "" && |n.calls| > 0 && s.current.None?
  }

  lemma ToolStepInStep(s: Streaming, n: Collecting, e: UpEvent, newId: nat -> string)
    requires InStep(s, n) && !e.FunctionCall?
    ensures if Strays(s, n, e) then Apart(StreamStep(s, e, newId), CollectStep(n, e, newId))
            else InStep(StreamStep(s, e, newId), CollectStep(n, e, newId))
  {
    if e.ToolCall? && e.id == "" && n.calls != [] {
      var last := |n.calls| - 1;
      if s.current.None? {
        assert ExtendLast(n.calls, "") == n.calls by { assert n.calls[last].args + "" == n.calls[last].args; }
        assert s.done[last] == n.calls[last];
      } else {
        assert n.calls == s.done + [s.current.value];
      }
    }
  }

  lemma ToolStepApart(s: Streaming, n: Collecting, e: UpEvent, newId: nat -> string)
    requires Apart(s, n) && !e.FunctionCall?
    ensures Apart(StreamStep(s, e, newId), CollectStep(n, e, newId))
  {
    var i :| 0 <= i < |s.done| && |s.done[i].args| < |n.calls[i].args|;
    var s', n' := StreamStep(s, e, newId), CollectStep(n, e, newId);
    assert s'.done[i] == s.done[i];
    assert |n.calls[i].args| <= |n'.calls[i].args|;
  }

  lemma {:induction false} ApartForGood(s: Streaming, n: Collecting, events: seq<UpEvent>, newId: nat -> string)
    requires Apart(s, n) && NoFunctionCalls(events)
    ensures Apart(StreamRun(s, events, newId), CollectRun(n, events, newId))
    decreases |events|
  {
    if |events| > 0 {
      ToolStepApart(s, n, events[0], newId);
      ApartForGood(StreamStep(s, events[0], newId), CollectStep(n, events[0], newId), events[1..], newId);
    }
  }

  lemma NoFunctionCallsTail(events: seq<UpEvent>)
    requires |events| > 0 && NoFunctionCalls(events)
    ensures !events[0].FunctionCall? && NoFunctionCalls(events[1..])
  {}

  /** The scan for stray text, one event on. */
  lemma StrayScan(s: Streaming, n: Collecting, events: seq<UpEvent>, newId: nat -> string)
    requires |events| > 0 && InStep(s, n) && !events[0].FunctionCall?
    ensures var s', n' := StreamStep(s, events[0], newId), CollectStep(n, events[0], newId);
            NoStrayArgs(events, s.current.Some?, |n.calls| > 0) ==
            (!Strays(s, n, events[0]) && NoStrayArgs(events[1..], s'.current.Some?, |n'.calls| > 0))
  {
    if s.current.Some? {
      assert |n.calls| == |s.done| + 1;
    }
  }

  lemma {:induction false} ToolRunsAgree(s: Streaming, n: Collecting, events: seq<UpEvent>, newId: nat -> string)
    requires InStep(s, n) && NoFunctionCalls(events)
    ensures var s', n' := StreamRun(s, events, newId), CollectRun(n, events, newId);
            if NoStrayArgs(events, s.current.Some?, |n.calls| > 0) then InStep(s', n') else Apart(s', n')
    decreases |events|
  {
    if |events| > 0 {
      var e := events[0];
      var s', n' := StreamStep(s, e, newId), CollectStep(n, e, newId);
      NoFunctionCallsTail(events);
      ToolStepInStep(s, n, e, newId);
      StrayScan(s, n, events, newId);
      if Strays(s, n, e) {
        ApartForGood(s', n', events[1..], newId);
      } else {
        ToolRunsAgree(s', n', events[1..], newId);
      }
    }
  }

  /**
   On streams of content, tool calls and finish metadata, the streamed message equals the other
   one exactly when no argument text comes after an id without a name while a call is there.
   */
  lemma AgreeOnToolCalls(events: seq<UpEvent>, newId: nat -> string)
    requires NoFunctionCalls(Body(events))
    ensures Streamed(events, newId) == Collected(events, newId) <==> NoStrayArgs(Body(events), false, false)
  {
    var s, n := Streaming([], None, 0), Collecting([], "", "", 0);
    ToolRunsAgree(s, n, Body(events), newId);
    var s', n' := StreamRun(s, Body(events), newId), CollectRun(n, Body(events), newId);
    if Apart(s', n') {
      var i :| 0 <= i < |s'.done| && |s'.done[i].args| < |n'.calls[i].args|;
      assert s'.Calls()[i] != n'.calls[i];
    }
  }

  /** In particular they agree whenever every id comes with a name. */
  lemma {:induction false} NamedIdsNeverStray(events: seq<UpEvent>, any: bool)
    requires forall i :: 0 <= i < |events| && events[i].ToolCall? && events[i].id != "" ==> events[i].name != ""
    ensures NoStrayArgs(events, any, any)
  {
    if events != [] {
      NamedIdsNeverStray(events[1..], any || (events[0].ToolCall? && events[0].id != ""));
    }
  }

  /** A witness: an id without a name ends the current call of the streaming handler alone, so text after it strays. */
  lemma StrayArgsDiffer(newId: nat -> string)
    ensures var events := [ToolCall("1", "f", ""), ToolCall("2", "", ""), ToolCall("", "", "x")];
            Streamed(events, newId) != Collected(events, newId)
  {
    var e1, e2 := ToolCall("2", "", ""), ToolCall("", "", "x");
    var events := [ToolCall("1", "f", ""), e1, e2];
    assert events[1..] == [e1, e2] && [e1, e2][1..] == [e2] && [e2][1..] == [];
    assert Body([e2][1..]) == [];
    assert Body([e2]) == [e2] && Body([e1, e2][1..]) == [e2];
    assert Body([e1, e2]) == [e1, e2] && Body(events[1..]) == [e1, e2];
    assert Body(events) == events;
    assert !NoStrayArgs([e2], false, true) && !NoStrayArgs([e1, e2], true, true);
    AgreeOnToolCalls(events, newId);
  }

  /** So on streams where every id comes with a name the two handlers build the same message. */
  lemma AgreeOnNamedIds(events: seq<UpEvent>, newId: nat -> string)
    requires NoFunctionCalls(Body(events))
    requires forall i :: 0 <= i < |Body(events)| && Body(events)[i].ToolCall? && Body(events)[i].id != "" ==>
               Body(events)[i].name != ""
    ensures Streamed(events, newId) == Collected(events, newId)
  {
    NamedIdsNeverStray(Body(events), false);
    AgreeOnToolCalls(events, newId);
  }

  // ----- function calls only: agreement up to the naming events' own arguments -----

  predicate NoToolCalls(events: seq<UpEvent>) {
    forall i :: 0 <= i < |events| ==> !events[i].ToolCall?
  }

  predicate NamesCarryNoArgs(events: seq<UpEvent>) {
    forall i :: 0 <= i < |events| && events[i].FunctionCall? && events[i].name != "" ==> events[i].args == ""
  }

  ghost predicate SameLegacy(s: Streaming, n: Collecting, newId: nat -> string) {
    s.Calls() == Finalized(n, newId).calls && s.generated == Finalized(n, newId).generated
    && (s.current.None? <==> n.legacyName == "") && (n.legacyName == "" ==> n.calls == [])
  }

  /** The two sides hold as many calls, and some call is longer on the non-streaming side by the text its name came with. */
  ghost predicate LegacyApart(s: Streaming, n: Collecting, newId: nat -> string) {
    var calls := Finalized(n, newId).calls;
    && n.legacyName != "" && s.current.Some? && |s.Calls()| == |calls|
    && exists i :: 0 <= i < |calls| && |s.Calls()[i].args| < |calls[i].args|
  }

  lemma NamingStep(s: Streaming, n: Collecting, e: UpEvent, newId: nat -> string)
    requires SameLegacy(s, n, newId) && e.FunctionCall? && e.name != ""
    ensures var s', n' := StreamStep(s, e, newId), CollectStep(n, e, newId);
            if e.args != "" then LegacyApart(s', n', newId) else SameLegacy(s', n', newId)
  {
    var s', n' := StreamStep(s, e, newId), CollectStep(n, e, newId);
    var calls := Finalized(n, newId).calls;
    assert "" + e.args == e.args;
    assert s'.Calls() == calls + [Call(newId(s.generated), e.name, "")];
    assert Finalized(n', newId).calls == calls + [Call(newId(s.generated), e.name, e.args)];
    if e.args != "" {
      assert |s'.Calls()[|calls|].args| < |Finalized(n', newId).calls[|calls|].args|;
    }
  }

  lemma ArgumentStep(s: Streaming, n: Collecting, e: UpEvent, newId: nat -> string)
    requires SameLegacy(s, n, newId) && e.FunctionCall? && e.name == ""
    ensures SameLegacy(StreamStep(s, e, newId), CollectStep(n, e, newId), newId)
  {
    if n.legacyName != "" {
      var calls := Finalized(n, newId).calls;
      assert s.Calls()[|n.calls|] == calls[|n.calls|];
      assert s.current.value == Call(newId(n.generated), n.legacyName, n.legacyArgs);
      assert s.done == s.Calls()[..|n.calls|] == n.calls;
    }
  }

  lemma ApartStep(s: Streaming, n: Collecting, e: UpEvent, newId: nat -> string)
    requires LegacyApart(s, n, newId) && !e.ToolCall?
    ensures LegacyApart(StreamStep(s, e, newId), CollectStep(n, e, newId), newId)
  {
    var s', n' := StreamStep(s, e, newId), CollectStep(n, e, newId);
    var calls, calls' := Finalized(n, newId).calls, Finalized(n', newId).calls;
    if e.FunctionCall? {
      var i :| 0 <= i < |calls| && |s.Calls()[i].args| < |calls[i].args|;
      assert |s'.Calls()[i].args| < |calls'[i].args|;
    }
  }

  lemma LegacyStep(s: Streaming, n: Collecting, e: UpEvent, newId: nat -> string)
    requires !e.ToolCall?
    ensures var s', n' := StreamStep(s, e, newId), CollectStep(n, e, newId);
            && (LegacyApart(s, n, newId) ==> LegacyApart(s', n', newId))
            && (SameLegacy(s, n, newId) ==>
                  if e.FunctionCall? && e.name != "" && e.args != "" then LegacyApart(s', n', newId)
                  else SameLegacy(s', n', newId))
  {
    if LegacyApart(s, n, newId) {
      ApartStep(s, n, e, newId);
    }
    if SameLegacy(s, n, newId) && e.FunctionCall? {
      if e.name != "" {
        NamingStep(s, n, e, newId);
      } else {
        ArgumentStep(s, n, e, newId);
      }
    }
  }

  lemma FunctionEventsTail(events: seq<UpEvent>)
    requires |events| > 0
    ensures NoToolCalls(events) ==> !events[0].ToolCall? && NoToolCalls(events[1..])
    ensures NamesCarryNoArgs(events) <==>
              !(events[0].FunctionCall? && events[0].name != "" && events[0].args != "") && NamesCarryNoArgs(events[1..])
  {
    assert forall i :: 1 <= i < |events| ==> events[i] == events[1..][i - 1];
  }

  lemma {:induction false} FunctionRunsAgree(s: Streaming, n: Collecting, events: seq<UpEvent>, newId: nat -> string)
    requires NoToolCalls(events)
    ensures var s', n' := StreamRun(s, events, newId), CollectRun(n, events, newId);
            && (LegacyApart(s, n, newId) ==> LegacyApart(s', n', newId))
            && (SameLegacy(s, n, newId) ==>
                  if NamesCarryNoArgs(events) then SameLegacy(s', n', newId) else LegacyApart(s', n', newId))
    decreases |events|
  {
    if |events| > 0 {
      FunctionEventsTail(events);
      LegacyStep(s, n, events[0], newId);
      FunctionRunsAgree(StreamStep(s, events[0], newId), CollectStep(n, events[0], newId), events[1..], newId);
    }
  }

  /**
   On streams of content, function calls and finish metadata, the two messages are equal up to
   generated ids, which are matched by drawing the i-th id of either side from the same supply,
   exactly when no naming event carries arguments of its own.
   */
  lemma AgreeOnFunctionCalls(events: seq<UpEvent>, newId: nat -> string)
    requires NoToolCalls(Body(events))
    ensures Streamed(events, newId) == Collected(events, newId) <==> NamesCarryNoArgs(Body(events))
  {
    FunctionRunsAgree(Streaming([], None, 0), Collecting([], "", "", 0), Body(events), newId);
  }

  /** A witness: arguments on the event that names a function are dropped by the streaming handler. */
  lemma NamingArgsDiffer(newId: nat -> string)
    ensures Streamed([FunctionCall("f", "{}")], newId) != Collected([FunctionCall("f", "{}")], newId)
  {
    var events := [FunctionCall("f", "{}")];
    assert events[1..] == [] && Body(events) == events;
    assert !NamesCarryNoArgs(events) by {
      assert events[0].FunctionCall? && events[0].name != "" && events[0].args != "";
    }
    AgreeOnFunctionCalls(events, newId);
  }

  // ----- mixed streams -----

  /** What the streaming machine is receiving. */
  datatype Open = NoCall | ToolOpen | FunctionOpen

  /** The scan's state after an event; `any` says whether the non-streaming machine has collected a call. */
  function OpenAfter(e: UpEvent, open: Open): Open {
    if e.ToolCall? && e.id != "" then (if e.name != "" then ToolOpen else NoCall)
    else if e.FunctionCall? && e.name != "" then FunctionOpen
    else open
  }

  function AnyAfter(e: UpEvent, open: Open, any: bool): bool {
    if e.ToolCall? && e.id != "" then any || e.name != "" || open.FunctionOpen?
    else if e.FunctionCall? && e.name != "" then any || open.FunctionOpen?
    else any
  }

  /**
   An event whose text both machines file under the same call: nameless tool text comes only while
   a tool call is open or before a call has been collected, function text never while a tool call
   is open, and naming function events carry none.
   */
  predicate FiledAlike(e: UpEvent, open: Open, any: bool) {
    match e
    case ToolCall(id, _, args) => id != "" || args == "" || open.ToolOpen? || !any
    case FunctionCall(name, args) => args == "" || (name == "" && !open.ToolOpen?)
    case _ => true
  }

  predicate Coherent(events: seq<UpEvent>, open: Open, any: bool) {
    |events| == 0 ||
    (FiledAlike(events[0], open, any) && Coherent(events[1..], OpenAfter(events[0], open), AnyAfter(events[0], open, any)))
  }

  /** The machines hold the same calls, the non-streaming one keeping an open function call aside. */
  ghost predicate Together(s: Streaming, n: Collecting, open: Open, any: bool, newId: nat -> string) {
    && any == (|n.calls| > 0)
    && match open
       case NoCall => s.current.None? && n.legacyName == "" && s.done == n.calls && s.generated == n.generated
       case ToolOpen =>
         && s.current.Some? && n.legacyName == "" && s.generated == n.generated
         && n.calls == s.done + [s.current.value]
       case FunctionOpen =>
         && n.legacyName != "" && s.done == n.calls && s.generated == n.generated + 1
         && s.current == Some(Call(newId(n.generated), n.legacyName, n.legacyArgs))
  }

  lemma NamedToolStep(s: Streaming, n: Collecting, e: UpEvent, open: Open, any: bool, newId: nat -> string)
    requires Together(s, n, open, any, newId) && e.ToolCall? && e.id != ""
    ensures Together(StreamStep(s, e, newId), CollectStep(n, e, newId), OpenAfter(e, open), AnyAfter(e, open, any), newId)
  {
  }

  lemma ToolTextStep(s: Streaming, n: Collecting, e: UpEvent, open: Open, any: bool, newId: nat -> string)
    requires Together(s, n, open, any, newId) && e.ToolCall? && e.id == ""
    requires e.args == "" || open.ToolOpen? || !any
    ensures Together(StreamStep(s, e, newId), CollectStep(n, e, newId), open, any, newId)
  {
    var last := |n.calls| - 1;
    if open.ToolOpen? {
      assert n.calls[last] == s.current.value && n.calls[..last] == s.done;
    } else if any {
      assert n.calls[last].args + "" == n.calls[last].args;
      assert ExtendLast(n.calls, "") == n.calls;
      if s.current.Some? {
        assert s.current.value.args + "" == s.current.value.args;
      }
    }
  }

  lemma FunctionStep(s: Streaming, n: Collecting, e: UpEvent, open: Open, any: bool, newId: nat -> string)
    requires Together(s, n, open, any, newId) && e.FunctionCall?
    requires if e.name != "" then e.args == "" else e.args == "" || !open.ToolOpen?
    ensures Together(StreamStep(s, e, newId), CollectStep(n, e, newId), OpenAfter(e, open), AnyAfter(e, open, any), newId)
  {
    assert "" + "" == "";
    if e.name == "" && s.current.Some? && e.args == "" {
      assert s.current.value.args + "" == s.current.value.args;
    }
  }

  lemma CoherentStep(s: Streaming, n: Collecting, e: UpEvent, open: Open, any: bool, newId: nat -> string)
    requires Together(s, n, open, any, newId) && FiledAlike(e, open, any)
    ensures Together(StreamStep(s, e, newId), CollectStep(n, e, newId), OpenAfter(e, open), AnyAfter(e, open, any), newId)
  {
    match e {
      case ToolCall(id, name, args) =>
        if id != "" {
          NamedToolStep(s, n, e, open, any, newId);
        } else {
          ToolTextStep(s, n, e, open, any, newId);
        }
      case FunctionCall(_, _) => FunctionStep(s, n, e, open, any, newId);
      case _ =>
    }
  }

  lemma {:induction false} MixedRunsAgree(s: Streaming, n: Collecting, events: seq<UpEvent>, open: Open, any: bool,
                                          newId: nat -> string)
    requires Together(s, n, open, any, newId) && Coherent(events, open, any)
    ensures StreamRun(s, events, newId).Calls() == Finalized(CollectRun(n, events, newId), newId).calls
    decreases |events|
  {
    if |events| > 0 {
      var e := events[0];
      CoherentStep(s, n, e, open, any, newId);
      MixedRunsAgree(StreamStep(s, e, newId), CollectStep(n, e, newId), events[1..], OpenAfter(e, open),
                     AnyAfter(e, open, any), newId);
    }
  }

  /** Over all streams, mixed ones included: when no text would be filed apart the two messages are equal. */
  lemma AgreeOnCoherentStreams(events: seq<UpEvent>, newId: nat -> string)
    requires Coherent(Body(events), NoCall, false)
    ensures Streamed(events, newId) == Collected(events, newId)
  {
    MixedRunsAgree(Streaming([], None, 0), Collecting([], "", "", 0), Body(events), NoCall, false, newId);
  }

  /** The calls the two machines would report if the stream broke off now. */
  ghost predicate SameNow(s: Streaming, n: Collecting, newId: nat -> string) {
    s.Calls() == Finalized(n, newId).calls
  }

  /** The first event whose text is filed apart shows at once. */
  lemma FiledApartShows(s: Streaming, n: Collecting, e: UpEvent, open: Open, any: bool, newId: nat -> string)
    requires Together(s, n, open, any, newId) && !FiledAlike(e, open, any)
    ensures !SameNow(StreamStep(s, e, newId), CollectStep(n, e, newId), newId)
  {
    var s', n' := StreamStep(s, e, newId), CollectStep(n, e, newId);
    if e.ToolCall? {
      var last := |n.calls| - 1;
      assert |Finalized(n', newId).calls[last].args| == |n.calls[last].args| + |e.args|;
      assert s'.Calls()[last] == n.calls[last];
    } else if e.name != "" {
      var last := |s'.Calls()| - 1;
      assert s'.Calls()[last].args == "" && |Finalized(n', newId).calls| == |s'.Calls()|;
      assert "" + e.args == e.args && Finalized(n', newId).calls[last].args == e.args;
    } else {
      var last := |n.calls| - 1;
      assert |s'.Calls()[last].args| == |n.calls[last].args| + |e.args|;
    }
  }

  lemma {:induction false} CutsForceCoherence(s: Streaming, n: Collecting, events: seq<UpEvent>, open: Open, any: bool,
                                              newId: nat -> string)
    requires Together(s, n, open, any, newId)
    requires forall k :: 0 <= k <= |events| ==>
               SameNow(StreamRun(s, events[..k], newId), CollectRun(n, events[..k], newId), newId)
    ensures Coherent(events, open, any)
    decreases |events|
  {
    if |events| > 0 {
      var e, rest := events[0], events[1..];
      var s', n' := StreamStep(s, e, newId), CollectStep(n, e, newId);
      forall k | 0 <= k <= |rest| ensures SameNow(StreamRun(s', rest[..k], newId), CollectRun(n', rest[..k], newId), newId) {
        assert events[..k + 1][1..] == rest[..k];
      }
      assert rest[..0] == [];
      if !FiledAlike(e, open, any) {
        FiledApartShows(s, n, e, open, any, newId);
      }
      CoherentStep(s, n, e, open, any, newId);
      CutsForceCoherence(s', n', rest, OpenAfter(e, open), AnyAfter(e, open, any), newId);
    }
  }

  lemma {:induction false} CoherentPrefix(events: seq<UpEvent>, open: Open, any: bool, k: nat)
    requires k <= |events| && Coherent(events, open, any)
    ensures Coherent(events[..k], open, any)
    decreases |events|
  {
    if k > 0 {
      CoherentPrefix(events[1..], OpenAfter(events[0], open), AnyAfter(events[0], open, any), k - 1);
      assert events[..k][1..] == events[1..][..k - 1];
    }
  }

  lemma BodyOfBody(events: seq<UpEvent>, k: nat)
    requires k <= |Body(events)|
    ensures Body(Body(events)[..k]) == Body(events)[..k] && UpstreamReason(Body(events)[..k]) == ""
  {
    BodyFacts(events);
    BodyFacts(Body(events)[..k]);
    forall i | 0 <= i < k ensures !Body(events)[..k][i].FinishMetadata? {
      assert Body(events)[i] in Body(events);
    }
  }

  /**
   The exact condition: the two messages are equal wherever the stream may break off if and only if
   no text is filed apart.
   */
  lemma AgreeAtEveryCut(events: seq<UpEvent>, newId: nat -> string)
    ensures (forall k :: 0 <= k <= |Body(events)| ==>
               Streamed(Body(events)[..k], newId) == Collected(Body(events)[..k], newId))
       <==> Coherent(Body(events), NoCall, false)
  {
    var body, s, n := Body(events), Streaming([], None, 0), Collecting([], "", "", 0);
    forall k | 0 <= k <= |body|
      ensures Streamed(body[..k], newId) == Collected(body[..k], newId)
         <==> SameNow(StreamRun(s, body[..k], newId), CollectRun(n, body[..k], newId), newId)
    {
      BodyOfBody(events, k);
    }
    if Coherent(body, NoCall, false) {
      forall k | 0 <= k <= |body| ensures Streamed(body[..k], newId) == Collected(body[..k], newId) {
        BodyOfBody(events, k);
        CoherentPrefix(body, NoCall, false, k);
        AgreeOnCoherentStreams(body[..k], newId);
      }
    } else if forall k :: 0 <= k <= |body| ==> Streamed(body[..k], newId) == Collected(body[..k], newId) {
      CutsForceCoherence(s, n, body, NoCall, false, newId);
    }
  }

  /** The condition covers every stream of tool calls alone on which the handlers agree, */
  lemma {:induction false} ToolStreamsAreCoherent(events: seq<UpEvent>, open: bool, any: bool)
    requires NoFunctionCalls(events) && NoStrayArgs(events, open, any)
    ensures Coherent(events, if open then ToolOpen else NoCall, any)
  {
    if |events| > 0 {
      var e := events[0];
      var open' := if e.ToolCall? && e.id != "" then e.name != "" else open;
      var any' := any || (e.ToolCall? && e.id != "" && e.name != "");
      assert forall i :: 0 <= i < |events[1..]| ==> events[1..][i] == events[i + 1];
      ToolStreamsAreCoherent(events[1..], open', any');
    }
  }

  /** and every stream of function calls alone. */
  lemma {:induction false} FunctionStreamsAreCoherent(events: seq<UpEvent>, open: Open, any: bool)
    requires NoToolCalls(events) && NamesCarryNoArgs(events) && !open.ToolOpen?
    ensures Coherent(events, open, any)
  {
    if |events| > 0 {
      assert forall i :: 0 <= i < |events[1..]| ==> events[1..][i] == events[i + 1];
      FunctionStreamsAreCoherent(events[1..], OpenAfter(events[0], open), AnyAfter(events[0], open, any));
    }
  }

  /** A witness that mixed streams can differ: function text while a tool call is open. */
  lemma MixedStreamsMayDiffer(newId: nat -> string)
    ensures var events := [ToolCall("call_1", "f", ""), FunctionCall("", "{}")];
            && StreamedCalls(events, newId) == [Call("call_1", "f", "{}")]
            && CollectedCalls(events, newId) == [Call("call_1", "f", "")]
  {
    var e0, e1 := ToolCall("call_1", "f", ""), FunctionCall("", "{}");
    assert Body([e1]) == [e1] by { assert [e1][1..] == []; }
    assert Body([e0, e1]) == [e0, e1] by { assert [e0, e1][1..] == [e1]; }
    assert [e0, e1] == ([] + [e0]) + [e1];
    var s, n := Streaming([], None, 0), Collecting([], "", "", 0);
    StreamSnoc(s, [e0], e1, newId);
    StreamSnoc(s, [], e0, newId);
    CollectSnoc(n, [e0], e1, newId);
    CollectSnoc(n, [], e0, newId);
    assert "" + "{}" == "{}";
  }
}
