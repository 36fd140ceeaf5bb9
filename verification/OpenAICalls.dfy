/**
 What the two OpenAI machines compute, read off the events: which calls, under which ids and names and
 with which argument text, and which finish reason.
 */
module OpenAICalls {
  import opened OpenAIProtocol
  import opened Wrappers

  // ----- the streaming machine -----

  /** An event that ends the call before it: one with an id, or one that names a function. */
  predicate Ends(e: UpEvent) {
    (e.ToolCall? && e.id != "") || (e.FunctionCall? && e.name != "")
  }

  function ArgsIn(e: UpEvent): string {
    if e.ToolCall? || e.FunctionCall? then e.args else ""
  }

  /** The argument text up to the next event that ends a call. */
  function ArgsToNextEnd(events: seq<UpEvent>): string {
    if |events| == 0 || Ends(events[0]) then "" else ArgsIn(events[0]) + ArgsToNextEnd(events[1..])
  }

  /** One call for each event with both an id and a name, and for each that names a function, under the next new id. */
  function CallsOf(events: seq<UpEvent>, newId: nat -> string, generated: nat): seq<Call> {
    if |events| == 0 then []
    else
      var rest := events[1..];
      match events[0]
      case ToolCall(id, name, _) =>
        if id != "" && name != "" then [Call(id, name, ArgsToNextEnd(rest))] + CallsOf(rest, newId, generated)
        else CallsOf(rest, newId, generated)
      case FunctionCall(name, _) =>
        if name != "" then [Call(newId(generated), name, ArgsToNextEnd(rest))] + CallsOf(rest, newId, generated + 1)
        else CallsOf(rest, newId, generated)
      case _ => CallsOf(rest, newId, generated)
  }

  /** A call being received, completed by the text that follows. */
  function Pending(current: Option<Call>, more: string): seq<Call> {
    match current
    case None => []
    case Some(c) => [c.(args := c.args + more)]
  }

  lemma PendingNothing(current: Option<Call>)
    ensures Pending(current, "") == if current.Some? then [current.value] else []
  {
    if current.Some? {
      assert current.value.args + "" == current.value.args;
    }
  }

  lemma PendingMore(current: Option<Call>, args: string, more: string)
    requires current.Some?
    ensures Pending(Some(current.value.(args := current.value.args + args)), more) == Pending(current, args + more)
  {
    assert (current.value.args + args) + more == current.value.args + (args + more);
  }

  lemma PendingNew(c: Call, more: string)
    requires |c.args| == 0
    ensures Pending(Some(c), more) == [c.(args := more)]
  {
    assert c.args + more == more;
  }

  /** An event that ends a call completes the one being received, and may begin another. */
  lemma StreamEndStep(s: Streaming, e: UpEvent, newId: nat -> string, next: string)
    requires Ends(e)
    ensures var s' := StreamStep(s, e, newId);
            && s'.done == s.done + Pending(s.current, "")
            && s'.generated == s.generated + (if e.FunctionCall? then 1 else 0)
            && Pending(s'.current, next) == if |e.name| == 0 then []
                                            else [Call(if e.ToolCall? then e.id else newId(s.generated), e.name, next)]
  {
    PendingNothing(s.current);
    var s' := StreamStep(s, e, newId);
    if |e.name| > 0 {
      PendingNew(s'.current.value, next);
    }
  }

  /** Any other event may only add to its text. */
  lemma StreamTextStep(s: Streaming, e: UpEvent, newId: nat -> string, next: string)
    requires !Ends(e)
    ensures var s' := StreamStep(s, e, newId);
            s'.done == s.done && s'.generated == s.generated && Pending(s'.current, next) == Pending(s.current, ArgsIn(e) + next)
  {
    if s.current.Some? {
      if e.ToolCall? || e.FunctionCall? {
        PendingMore(s.current, e.args, next);
      } else {
        assert "" + next == next;
      }
    }
  }

  lemma CallsOfHead(e: UpEvent, rest: seq<UpEvent>, newId: nat -> string, generated: nat)
    ensures ArgsToNextEnd([e] + rest) == if Ends(e) then "" else ArgsIn(e) + ArgsToNextEnd(rest)
    ensures CallsOf([e] + rest, newId, generated) ==
            (if Ends(e) && |e.name| > 0 then
               [Call(if e.ToolCall? then e.id else newId(generated), e.name, ArgsToNextEnd(rest))] else [])
            + CallsOf(rest, newId, generated + (if Ends(e) && e.FunctionCall? then 1 else 0))
  {
    assert ([e] + rest)[1..] == rest;
  }

  /** What one event adds, once the rest of the events is known. */
  lemma StreamStepCalls(s: Streaming, e: UpEvent, rest: seq<UpEvent>, newId: nat -> string)
    ensures var s', events := StreamStep(s, e, newId), [e] + rest;
            s'.done + Pending(s'.current, ArgsToNextEnd(rest)) + CallsOf(rest, newId, s'.generated)
              == s.done + Pending(s.current, ArgsToNextEnd(events)) + CallsOf(events, newId, s.generated)
  {
    CallsOfHead(e, rest, newId, s.generated);
    if Ends(e) {
      StreamEndStep(s, e, newId, ArgsToNextEnd(rest));
    } else {
      StreamTextStep(s, e, newId, ArgsToNextEnd(rest));
    }
  }

  lemma {:induction false} StreamRunCalls(s: Streaming, events: seq<UpEvent>, newId: nat -> string)
    ensures StreamRun(s, events, newId).Calls() ==
            s.done + Pending(s.current, ArgsToNextEnd(events)) + CallsOf(events, newId, s.generated)
    decreases |events|
  {
    if |events| == 0 {
      PendingNothing(s.current);
    } else {
      assert events == [events[0]] + events[1..];
      StreamStepCalls(s, events[0], events[1..], newId);
      StreamRunCalls(StreamStep(s, events[0], newId), events[1..], newId);
    }
  }

  /** The streamed calls of any events, read off them: one for each named id and each named function, in order, with
      all argument text up to the next event that ends a call. */
  lemma StreamedCallsAreCallsOf(events: seq<UpEvent>, newId: nat -> string)
    ensures StreamedCalls(events, newId) == CallsOf(Body(events), newId, 0)
  {
    StreamRunCalls(Streaming([], None, 0), Body(events), newId);
  }

  // ----- the non-streaming machine -----

  /** The argument text of tool events without an id, up to the next id that comes with a name. */
  function ArgsToNextNamedId(events: seq<UpEvent>): string {
    if |events| == 0 then ""
    else if !events[0].ToolCall? then ArgsToNextNamedId(events[1..])
    else if events[0].id == "" then events[0].args + ArgsToNextNamedId(events[1..])
    else if events[0].name == "" then ArgsToNextNamedId(events[1..])
    else ""
  }

  /** One call for each id that comes with a name. */
  function NamedIdsOf(events: seq<UpEvent>): seq<Call> {
    if |events| == 0 then []
    else if events[0].ToolCall? && events[0].id != "" && events[0].name != "" then
      [Call(events[0].id, events[0].name, ArgsToNextNamedId(events[1..]))] + NamedIdsOf(events[1..])
    else NamedIdsOf(events[1..])
  }

  /** The last of some calls, completed by the text that follows. */
  function LastPending(calls: seq<Call>, more: string): seq<Call> {
    if |calls| == 0 then [] else ExtendLast(calls, more)
  }

  lemma LastPendingMore(calls: seq<Call>, args: string, more: string)
    requires |calls| > 0
    ensures LastPending(ExtendLast(calls, args), more) == LastPending(calls, args + more)
  {
    var last := calls[|calls| - 1];
    assert (last.args + args) + more == last.args + (args + more);
  }

  lemma LastPendingNothing(calls: seq<Call>)
    ensures LastPending(calls, "") == calls
  {
    if |calls| > 0 {
      assert calls[|calls| - 1].args + "" == calls[|calls| - 1].args;
    }
  }

  lemma LastPendingNew(calls: seq<Call>, c: Call, more: string)
    requires |c.args| == 0
    ensures LastPending(calls + [c], more) == calls + [c.(args := more)]
  {
    assert c.args + more == more;
  }

  lemma CollectToolStep(n: Collecting, e: UpEvent, rest: seq<UpEvent>, newId: nat -> string)
    requires n.legacyName == "" && !e.FunctionCall?
    ensures var n', events := CollectStep(n, e, newId), [e] + rest;
            && n'.legacyName == ""
            && LastPending(n'.calls, ArgsToNextNamedId(rest)) + NamedIdsOf(rest)
                 == LastPending(n.calls, ArgsToNextNamedId(events)) + NamedIdsOf(events)
  {
    var next := ArgsToNextNamedId(rest);
    assert ([e] + rest)[1..] == rest;
    if e.ToolCall? && e.id != "" && e.name != "" {
      LastPendingNothing(n.calls);
      LastPendingNew(n.calls, Call(e.id, e.name, ""), next);
    } else if e.ToolCall? && e.id == "" && |n.calls| > 0 {
      LastPendingMore(n.calls, e.args, next);
    }
  }

  lemma {:induction false} CollectToolRun(n: Collecting, events: seq<UpEvent>, newId: nat -> string)
    requires n.legacyName == "" && NoFunctionCalls(events)
    ensures Finalized(CollectRun(n, events, newId), newId).calls
              == LastPending(n.calls, ArgsToNextNamedId(events)) + NamedIdsOf(events)
    decreases |events|
  {
    if |events| == 0 {
      LastPendingNothing(n.calls);
    } else {
      NoFunctionCallsTail(events);
      assert events == [events[0]] + events[1..];
      CollectToolStep(n, events[0], events[1..], newId);
      CollectToolRun(CollectStep(n, events[0], newId), events[1..], newId);
    }
  }

  /** The collected calls of tool events: one for each named id, in order, with all argument text up to the next one. */
  lemma CollectedToolCalls(events: seq<UpEvent>, newId: nat -> string)
    requires NoFunctionCalls(Body(events))
    ensures CollectedCalls(events, newId) == NamedIdsOf(Body(events))
  {
    CollectToolRun(Collecting([], "", "", 0), Body(events), newId);
  }

  /** The argument text of function events up to the next one with a name. */
  function ArgsToNextName(events: seq<UpEvent>): string {
    if |events| == 0 then ""
    else if !events[0].FunctionCall? then ArgsToNextName(events[1..])
    else if events[0].name == "" then events[0].args + ArgsToNextName(events[1..])
    else ""
  }

  /** One call for each event that names a function, with that event's own argument text first. */
  function FunctionsOf(events: seq<UpEvent>, newId: nat -> string, generated: nat): seq<Call> {
    if |events| == 0 then []
    else if events[0].FunctionCall? && events[0].name != "" then
      [Call(newId(generated), events[0].name, events[0].args + ArgsToNextName(events[1..]))]
        + FunctionsOf(events[1..], newId, generated + 1)
    else FunctionsOf(events[1..], newId, generated)
  }

  /** The calls collected, the legacy call completed by the text that follows. */
  function WithLegacy(n: Collecting, more: string, newId: nat -> string): seq<Call> {
    if n.legacyName == "" then n.calls else n.calls + [Call(newId(n.generated), n.legacyName, n.legacyArgs + more)]
  }

  function IdsTaken(n: Collecting): nat {
    if n.legacyName == "" then n.generated else n.generated + 1
  }

  lemma CollectNameStep(n: Collecting, e: UpEvent, newId: nat -> string, next: string)
    requires e.FunctionCall? && |e.name| > 0
    ensures var n' := CollectStep(n, e, newId);
            && IdsTaken(n') == IdsTaken(n) + 1
            && WithLegacy(n', next, newId) == WithLegacy(n, "", newId) + [Call(newId(IdsTaken(n)), e.name, e.args + next)]
  {
    assert "" + e.args == e.args;
    assert n.legacyArgs + "" == n.legacyArgs;
  }

  lemma CollectTextStep(n: Collecting, e: UpEvent, newId: nat -> string, next: string)
    requires !e.ToolCall? && (e.FunctionCall? ==> |e.name| == 0)
    ensures var n' := CollectStep(n, e, newId);
            && IdsTaken(n') == IdsTaken(n)
            && WithLegacy(n', next, newId) == WithLegacy(n, if e.FunctionCall? then e.args + next else next, newId)
  {
    if e.FunctionCall? {
      assert (n.legacyArgs + e.args) + next == n.legacyArgs + (e.args + next);
    }
  }

  lemma CollectFunctionStep(n: Collecting, e: UpEvent, rest: seq<UpEvent>, newId: nat -> string)
    requires !e.ToolCall?
    ensures var n', events := CollectStep(n, e, newId), [e] + rest;
            WithLegacy(n', ArgsToNextName(rest), newId) + FunctionsOf(rest, newId, IdsTaken(n'))
              == WithLegacy(n, ArgsToNextName(events), newId) + FunctionsOf(events, newId, IdsTaken(n))
  {
    assert ([e] + rest)[1..] == rest;
    if e.FunctionCall? && |e.name| > 0 {
      CollectNameStep(n, e, newId, ArgsToNextName(rest));
    } else {
      CollectTextStep(n, e, newId, ArgsToNextName(rest));
    }
  }

  lemma {:induction false} CollectFunctionRun(n: Collecting, events: seq<UpEvent>, newId: nat -> string)
    requires NoToolCalls(events)
    ensures Finalized(CollectRun(n, events, newId), newId).calls
              == WithLegacy(n, ArgsToNextName(events), newId) + FunctionsOf(events, newId, IdsTaken(n))
    decreases |events|
  {
    if |events| == 0 {
      assert n.legacyArgs + "" == n.legacyArgs;
    } else {
      FunctionEventsTail(events);
      assert events == [events[0]] + events[1..];
      CollectFunctionStep(n, events[0], events[1..], newId);
      CollectFunctionRun(CollectStep(n, events[0], newId), events[1..], newId);
    }
  }

  /** The collected calls of function events: one for each name, in order, under new ids, with all argument text from
      that event to the next name. */
  lemma CollectedFunctionCalls(events: seq<UpEvent>, newId: nat -> string)
    requires NoToolCalls(Body(events))
    ensures CollectedCalls(events, newId) == FunctionsOf(Body(events), newId, 0)
  {
    CollectFunctionRun(Collecting([], "", "", 0), Body(events), newId);
  }

  // ----- the finish reason -----

  lemma FirstFinish(events: seq<UpEvent>, i: nat)
    requires i <= |events| && (forall j :: 0 <= j < i ==> !events[j].FinishMetadata?)
    requires i < |events| ==> events[i].FinishMetadata?
    ensures if i < |events| then UpstreamReason(events) == events[i].reason else |UpstreamReason(events)| == 0
  {
    BodyFacts(events);
    var k := |Body(events)|;
    if i < |events| {
      assert Finished(events) && events[k].FinishMetadata?;
      assert forall j :: 0 <= j < k ==> events[j] in Body(events);
    }
  }

  lemma ReasonOf(reason: string, calls: seq<Call>)
    ensures FinishReason(reason, calls) ==
            if |reason| == 0 then (if |calls| > 0 then "tool_calls" else "stop")
            else if reason == "tool_call" then "tool_calls"
            else if reason == "length" then "length"
            else "stop"
  {}

  /** The reason either machine gives: that of the first FinishMetadata, translated, and without one what the calls
      say. */
  lemma FinishReasonIs(events: seq<UpEvent>, newId: nat -> string, i: nat)
    requires i <= |events| && (forall j :: 0 <= j < i ==> !events[j].FinishMetadata?)
    requires i < |events| ==> events[i].FinishMetadata?
    ensures var s, n := Streamed(events, newId), Collected(events, newId);
      && (if i < |events| && events[i].reason == "tool_call" then s.finishReason == n.finishReason == "tool_calls"
          else if i < |events| && events[i].reason == "length" then s.finishReason == n.finishReason == "length"
          else if i < |events| && |events[i].reason| > 0 then s.finishReason == n.finishReason == "stop"
          else
            && s.finishReason == (if |s.calls| > 0 then "tool_calls" else "stop")
            && n.finishReason == (if |n.calls| > 0 then "tool_calls" else "stop"))
  {
    BodyFacts(events);
    FirstFinish(events, i);
    ReasonOf(UpstreamReason(events), StreamedCalls(events, newId));
    ReasonOf(UpstreamReason(events), CollectedCalls(events, newId));
  }

  lemma NoFinish(events: seq<UpEvent>)
    requires forall j :: 0 <= j < |events| ==> !events[j].FinishMetadata?
    ensures Body(events) == events
  {
    BodyFacts(events);
  }

  /** And both say all the text before it, in order. */
  lemma TextIsAllContent(events: seq<UpEvent>, e: UpEvent, newId: nat -> string)
    requires !e.FinishMetadata? && forall j :: 0 <= j < |events| ==> !events[j].FinishMetadata?
    ensures Streamed(events + [e], newId).text == Streamed(events, newId).text + (if e.Content? then e.text else "")
    ensures Collected(events + [e], newId).text == Collected(events, newId).text + (if e.Content? then e.text else "")
  {
    NoFinish(events);
    NoFinish(events + [e]);
    TextSnoc(events, e);
  }
}
