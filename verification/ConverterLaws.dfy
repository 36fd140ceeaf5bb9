/**
 What each chat message becomes upstream, role by role, and how tool results and tool calls of one
 conversation belong together.
 */
module ConverterLaws {
  import opened Converter
  import opened Wrappers

  // ----- text -----

  ghost predicate HasText(parts: seq<Part>) {
    exists i :: 0 <= i < |parts| && parts[i].TextPart?
  }

  lemma {:induction false} TextsAppend(a: seq<Part>, b: seq<Part>)
    ensures Texts(a + b) == Texts(a) + Texts(b)
  {
    if |a| == 0 {
      assert a + b == b;
    } else {
      assert (a + b)[1..] == a[1..] + b;
      TextsAppend(a[1..], b);
    }
  }

  lemma {:induction false} NoTexts(parts: seq<Part>)
    ensures |Texts(parts)| == 0 <==> !HasText(parts)
  {
    if |parts| > 0 {
      NoTexts(parts[1..]);
      if parts[0].TextPart? {
        assert HasText(parts);
      } else if HasText(parts) {
        var i :| 0 <= i < |parts| && parts[i].TextPart?;
        assert parts[1..][i - 1].TextPart?;
      }
    }
  }

  lemma {:induction false} JoinAppend(a: seq<string>, b: seq<string>)
    requires |a| > 0 && |b| > 0
    ensures Join(a + b) == Join(a) + " " + Join(b)
  {
    if |a| == 1 {
      assert (a + b)[1..] == b;
    } else {
      assert (a + b)[1..] == a[1..] + b;
      JoinAppend(a[1..], b);
      assert a[0] + " " + (Join(a[1..]) + " " + Join(b)) == (a[0] + " " + Join(a[1..])) + " " + Join(b);
    }
  }

  lemma OneText(text: string)
    ensures TextOf(Parts([TextPart(text)])) == text
  {
    var parts := [TextPart(text)];
    assert |parts[1..]| == 0;
    assert Texts(parts) == [text];
  }

  /** The text of a content: a plain text itself; of parts, the text parts joined by single blanks, all of them in order. */
  lemma TextOfParts(a: seq<Part>, b: seq<Part>, text: string)
    ensures TextOf(PlainText(text)) == TextOf(Parts([TextPart(text)])) == text
    ensures HasText(a) && HasText(b) ==> TextOf(Parts(a + b)) == TextOf(Parts(a)) + " " + TextOf(Parts(b))
    ensures !HasText(a) ==> TextOf(Parts(a + b)) == TextOf(Parts(b))
    ensures !HasText(b) ==> TextOf(Parts(a + b)) == TextOf(Parts(a))
    ensures !HasText(a) ==> |TextOf(Parts(a))| == 0
  {
    TextsAppend(a, b);
    NoTexts(a);
    NoTexts(b);
    OneText(text);
    if !HasText(a) {
      assert Texts(a) + Texts(b) == Texts(b);
    } else if !HasText(b) {
      assert Texts(a) + Texts(b) == Texts(a);
    } else {
      JoinAppend(Texts(a), Texts(b));
    }
  }

  // ----- images -----

  lemma {:induction false} BeforeSplit(s: string, c: char, rest: string)
    requires c !in s
    ensures Before(s + [c] + rest, c) == Some(s)
  {
    var all := s + [c] + rest;
    assert all[|s|] == c;
    assert all[..|s|] == s;
  }

  lemma HeaderReadsBack(url: string, header: string, kind: string, payload: string)
    requires "data:" <= url && Before(url, ',') == Some(header) && url[|header| + 1..] == payload
    requires |kind| >= 5 && kind[..5] == "data:" && Before(header, ';') == (if header == kind then None else Some(kind))
    ensures DataUrl(url) == Some((kind[5..], payload))
  {}

  lemma NoSeparator(s: string, c: char)
    requires c !in s
    ensures Before(s, c).None?
  {}

  lemma HeaderSplit(tag: string, params: string)
    requires ';' !in tag && (|params| > 0 ==> params[0] == ';')
    ensures Before(tag + params, ';') == if tag + params == tag then None else Some(tag)
  {
    if |params| > 0 {
      assert tag + params == tag + [';'] + params[1..];
      BeforeSplit(tag, ';', params[1..]);
    } else {
      assert tag + params == tag;
      NoSeparator(tag, ';');
    }
  }

  /** A data URL reads back its media type and its payload, with or without parameters between them. */
  lemma DataUrlReadsBack(kind: string, params: string, payload: string)
    requires ',' !in kind && ';' !in kind && ',' !in params && (|params| > 0 ==> params[0] == ';')
    ensures DataUrl("data:" + kind + params + "," + payload) == Some((kind, payload))
  {
    var tag := "data:" + kind;
    var header := tag + params;
    var url := header + "," + payload;
    assert "data:" <= url by {
      assert url[..5] == "data:";
    }
    BeforeSplit(header, ',', payload);
    HeaderSplit(tag, params);
    HeaderReadsBack(url, header, tag, payload);
  }

  /** Any other URL has neither. */
  lemma NoDataUrl(url: string)
    ensures DataUrl(url).None? <==> !("data:" <= url) || ',' !in url
  {}

  predicate IsImage(part: Part) {
    part.ImagePart? && "data:" <= part.url && ',' in part.url
  }

  lemma {:induction false} FirstImageIs(before: seq<Part>, image: Part, after: seq<Part>)
    requires (forall i :: 0 <= i < |before| ==> !IsImage(before[i])) && IsImage(image)
    ensures FirstImage(before + [image] + after) == DataUrl(image.url)
  {
    var all := before + [image] + after;
    if |before| > 0 {
      assert all[0] == before[0] && !IsImage(before[0]);
      assert all[1..] == before[1..] + [image] + after;
      FirstImageIs(before[1..], image, after);
    } else {
      assert all[0] == image;
    }
  }

  lemma {:induction false} NoFirstImage(parts: seq<Part>)
    requires forall i :: 0 <= i < |parts| ==> !IsImage(parts[i])
    ensures FirstImage(parts).None?
  {
    if |parts| > 0 {
      assert !IsImage(parts[0]);
      NoFirstImage(parts[1..]);
    }
  }

  // ----- one message -----

  /** The first image of a user message goes ahead of its text, which is left out if empty; an image that is not
      accepted leaves the text alone.  Later images do not count. */
  lemma ImageGoesFirst(env: Env, names: Names, m: ChatMessage, before: seq<Part>, kind: string, params: string,
                       payload: string, after: seq<Part>)
    requires ',' !in kind && ';' !in kind && ',' !in params && (|params| > 0 ==> params[0] == ';')
    requires forall i :: 0 <= i < |before| ==> !IsImage(before[i])
    requires m.role == "user" && m.content == Parts(before + [ImagePart("data:" + kind + params + "," + payload)] + after)
    ensures var r, text := ConvertOne(env, names, m), TextOf(m.content);
            if !env.acceptsImage(kind, payload) then r == [User(text)]
            else if |text| == 0 then r == [Media(kind, payload)]
            else r == [Media(kind, payload), User(text)]
  {
    var url := "data:" + kind + params + "," + payload;
    DataUrlReadsBack(kind, params, payload);
    NoDataUrl(url);
    FirstImageIs(before, ImagePart(url), after);
  }

  lemma {:induction false} UserTextsAppend(a: seq<Part>, b: seq<Part>)
    ensures UserTexts(a + b) == UserTexts(a) + UserTexts(b)
  {
    if |a| == 0 {
      assert a + b == b;
    } else {
      assert (a + b)[1..] == a[1..] + b;
      UserTextsAppend(a[1..], b);
    }
  }

  lemma OneUserText(part: Part)
    ensures UserTexts([part]) == if part.TextPart? && |part.text| > 0 then [User(part.text)] else []
  {
    assert |[part][1..]| == 0;
  }

  /** Without an image, the parts of a user message go one by one: a message for each text that is not empty. */
  lemma TextsGoOneByOne(env: Env, names: Names, m: ChatMessage, a: seq<Part>, part: Part)
    requires m.role == "user" && m.content == Parts(a + [part])
    requires forall i :: 0 <= i < |a| ==> !IsImage(a[i])
    requires !IsImage(part)
    ensures var before := ConvertOne(env, names, m.(content := Parts(a)));
            ConvertOne(env, names, m) ==
            if part.TextPart? && |part.text| > 0 then before + [User(part.text)] else before
    ensures |a| == 0 ==> |ConvertOne(env, names, m.(content := Parts(a)))| == 0
  {
    NoFirstImage(a);
    NoFirstImage(a + [part]);
    UserTextsAppend(a, [part]);
    OneUserText(part);
  }

  /** A message without parts, of the system, or of a role there is no rule for, becomes one message with its text. */
  lemma TextMessageIsOne(env: Env, names: Names, m: ChatMessage)
    ensures m.role == "user" && !m.content.Parts? ==> ConvertOne(env, names, m) == [User(TextOf(m.content))]
    ensures m.role == "system" ==> ConvertOne(env, names, m) == [System(TextOf(m.content))]
    ensures m.role !in ["user", "system", "assistant", "tool"] ==> ConvertOne(env, names, m) == [User(TextOf(m.content))]
  {}

  lemma {:induction false} CallMessageAt(env: Env, calls: seq<ToolCall>, i: nat)
    requires i < |calls|
    ensures |CallMessages(env, calls)| == |calls|
    ensures CallMessages(env, calls)[i] == AssistantTool(calls[i].id, calls[i].name, env.cleanArguments(calls[i].arguments))
  {
    if |calls| > 1 {
      CallMessageAt(env, calls[1..], if i == 0 then 0 else i - 1);
    }
  }

  /** An assistant message becomes its text, left out if empty beside calls, and then one message for each call, in
      order, under the call's own id and name and with its arguments cleaned. */
  lemma CallsGoInOrder(env: Env, names: Names, m: ChatMessage)
    requires m.role == "assistant"
    ensures var r, calls, text := ConvertOne(env, names, m), m.toolCalls, TextOf(m.content);
            var lead := |r| - |calls|;
            && lead == (if |calls| == 0 || |text| > 0 then 1 else 0)
            && (lead == 1 ==> r[0] == AssistantText(text))
            && (forall i :: 0 <= i < |calls| ==>
                  r[lead + i] == AssistantTool(calls[i].id, calls[i].name, env.cleanArguments(calls[i].arguments)))
  {
    var calls, text := m.toolCalls, TextOf(m.content);
    var r := CallMessages(env, calls);
    forall i | 0 <= i < |calls|
      ensures |r| == |calls| && r[i] == AssistantTool(calls[i].id, calls[i].name, env.cleanArguments(calls[i].arguments))
    {
      CallMessageAt(env, calls, i);
    }
    if |text| > 0 {
      assert text != "";
    }
  }

  /** Every message of a conversation is converted in its place, under the names of the whole conversation. */
  lemma EveryMessageInPlace(env: Env, before: seq<ChatMessage>, m: ChatMessage, after: seq<ChatMessage>)
    ensures var all := before + [m] + after;
      var names := NamesIn(map[], all);
      Conversion(env, all) == ConvertAll(env, names, before) + ConvertOne(env, names, m) + ConvertAll(env, names, after)
  {
    var all := before + [m] + after;
    var names := NamesIn(map[], all);
    ConvertAllAppend(env, names, before + [m], after);
    ConvertAllSnoc(env, names, before, m);
  }

  // ----- results and calls belong together -----

  /** Some assistant message calls a tool with this name under this id. */
  ghost predicate CalledAs(messages: seq<ChatMessage>, id: string, name: string) {
    exists i, j :: 0 <= i < |messages| && messages[i].role == "assistant" && 0 <= j < |messages[i].toolCalls|
                   && messages[i].toolCalls[j].id == id && messages[i].toolCalls[j].name == name
  }

  lemma {:induction false} LastCallInIsCall(calls: seq<ToolCall>, id: string)
    ensures LastCallIn(calls, id).Some? ==>
              && |id| > 0 && |LastCallIn(calls, id).value| > 0
              && exists j :: 0 <= j < |calls| && calls[j].id == id && calls[j].name == LastCallIn(calls, id).value
    ensures forall j :: 0 <= j < |calls| && calls[j].id == id && |id| > 0 && |calls[j].name| > 0 ==> LastCallIn(calls, id).Some?
  {
    if |calls| > 0 {
      var init, last := calls[..|calls| - 1], calls[|calls| - 1];
      LastCallInIsCall(init, id);
      assert forall j :: 0 <= j < |init| ==> init[j] == calls[j];
    }
  }

  lemma {:induction false} LastCallIsCalled(messages: seq<ChatMessage>, id: string)
    ensures LastCall(messages, id).Some? ==>
              |id| > 0 && |LastCall(messages, id).value| > 0 && CalledAs(messages, id, LastCall(messages, id).value)
  {
    if |messages| > 0 {
      var init, last := messages[..|messages| - 1], messages[|messages| - 1];
      LastCallInIsCall(last.toolCalls, id);
      LastCallIsCalled(init, id);
      if last.role == "assistant" && LastCallIn(last.toolCalls, id).Some? {
        assert messages[|messages| - 1] == last;
      } else if LastCall(init, id).Some? {
        var name := LastCall(init, id).value;
        var i, j :| 0 <= i < |init| && init[i].role == "assistant" && 0 <= j < |init[i].toolCalls|
                    && init[i].toolCalls[j].id == id && init[i].toolCalls[j].name == name;
        assert messages[i] == init[i];
      }
    }
  }

  lemma {:induction false} CalledHasLast(messages: seq<ChatMessage>, id: string, name: string)
    requires |id| > 0 && |name| > 0 && CalledAs(messages, id, name)
    ensures LastCall(messages, id).Some?
  {
    var init, last := messages[..|messages| - 1], messages[|messages| - 1];
    var i, j :| 0 <= i < |messages| && messages[i].role == "assistant" && 0 <= j < |messages[i].toolCalls|
                && messages[i].toolCalls[j].id == id && messages[i].toolCalls[j].name == name;
    LastCallInIsCall(last.toolCalls, id);
    if i < |init| {
      assert init[i] == messages[i];
      assert CalledAs(init, id, name);
      CalledHasLast(init, id, name);
    }
  }

  lemma {:induction false} FlatMapIn<A, B>(f: A -> seq<B>, s: seq<A>, i: nat, x: B)
    requires i < |s| && x in f(s[i])
    ensures x in FlatMap(f, s)
  {
    if i < |s| - 1 {
      FlatMapIn(f, s[..|s| - 1], i, x);
    }
  }

  lemma ConvertedIn(env: Env, messages: seq<ChatMessage>, i: nat, x: OutMessage)
    requires i < |messages| && x in ConvertOne(env, NamesIn(map[], messages), messages[i])
    ensures x in Conversion(env, messages)
  {
    var names := NamesIn(map[], messages);
    FlatMapIn(m => ConvertOne(env, names, m), messages, i, x);
  }

  lemma CallIsSent(env: Env, messages: seq<ChatMessage>, id: string, name: string)
    requires CalledAs(messages, id, name)
    ensures exists x :: x in Conversion(env, messages) && x.AssistantTool? && x.id == id && x.toolName == name
  {
    var i, j :| 0 <= i < |messages| && messages[i].role == "assistant" && 0 <= j < |messages[i].toolCalls|
                && messages[i].toolCalls[j].id == id && messages[i].toolCalls[j].name == name;
    var names := NamesIn(map[], messages);
    CallsGoInOrder(env, names, messages[i]);
    var r := ConvertOne(env, names, messages[i]);
    var x := r[|r| - |messages[i].toolCalls| + j];
    ConvertedIn(env, messages, i, x);
    assert x.AssistantTool? && x.id == id && x.toolName == name;
  }

  /** A result whose id some named call carries is sent with a call of the same id and name in the same conversation,
      and one whose id no named call carries is sent under the fallback name. */
  lemma ResultsMatchCalls(env: Env, messages: seq<ChatMessage>, i: nat)
    requires i < |messages| && messages[i].role == "tool"
    ensures var id := messages[i].toolCallId;
      if |id| > 0 && exists name :: |name| > 0 && CalledAs(messages, id, name) then
        exists x, y ::
          && x in Conversion(env, messages) && x.ToolResult? && x.id == id && x.result == TextOf(messages[i].content)
          && y in Conversion(env, messages) && y.AssistantTool? && y.id == id && y.toolName == x.toolName
      else ToolResult(id, "unknown_tool", TextOf(messages[i].content)) in Conversion(env, messages)
  {
    var id, names := messages[i].toolCallId, NamesIn(map[], messages);
    NamedByLastCall(messages, id);
    var x := ToolResult(id, NameOf(names, id), TextOf(messages[i].content));
    assert ConvertOne(env, names, messages[i])[0] == x;
    ConvertedIn(env, messages, i, x);
    LastCallIsCalled(messages, id);
    if |id| > 0 && exists name :: |name| > 0 && CalledAs(messages, id, name) {
      var name :| |name| > 0 && CalledAs(messages, id, name);
      CalledHasLast(messages, id, name);
      CallIsSent(env, messages, id, x.toolName);
    }
  }
}
