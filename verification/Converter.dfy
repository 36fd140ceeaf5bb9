/** Conversion of OpenAI chat messages, with its pool of reusable converters.

    Re-marshalling of tool arguments and the base64 check of images are functions given from outside. */
module Converter {
  import opened Wrappers

  datatype Part = TextPart(text: string) | ImagePart(url: string) | OtherPart

  datatype Content = NoContent | PlainText(text: string) | Parts(parts: seq<Part>)

  datatype ToolCall = ToolCall(id: string, name: string, arguments: string)

  datatype ChatMessage = ChatMessage(role: string, content: Content, toolCalls: seq<ToolCall>, toolCallId: string)

  datatype OutMessage =
    | User(content: string)
    | System(content: string)
    | Media(mediaType: string, data: string)
    | AssistantText(content: string)
    | AssistantTool(id: string, toolName: string, content: string)
    | ToolResult(id: string, toolName: string, result: string)

  /** What the model does not look into. */
  datatype Env = Env(cleanArguments: string -> string, acceptsImage: (string, string) -> bool)

  // ----- content -----

  function Texts(parts: seq<Part>): seq<string> {
    if |parts| == 0 then []
    else if parts[0].TextPart? then [parts[0].text] + Texts(parts[1..])
    else Texts(parts[1..])
  }

  function Join(texts: seq<string>): string {
    if |texts| == 0 then "" else if |texts| == 1 then texts[0] else texts[0] + " " + Join(texts[1..])
  }

  function TextOf(content: Content): string {
    match content
    case NoContent => ""
    case PlainText(text) => text
    case Parts(parts) => Join(Texts(parts))
  }

  /** The text before the first `c`, if there is one. */
  function Before(s: string, c: char): (r: Option<string>)
    ensures r.Some? ==> |r.value| < |s| && r.value == s[..|r.value|] && s[|r.value|] == c && c !in r.value
    ensures r.None? ==> c !in s
  {
    if |s| == 0 then None
    else if s[0] == c then Some("")
    else match Before(s[1..], c)
      case None => None
      case Some(rest) => Some([s[0]] + rest)
  }

  /** The media type and payload of `data:type;...,payload`. */
  function DataUrl(url: string): Option<(string, string)> {
    if !("data:" <= url) then None
    else
      match Before(url, ',')
      case None => None
      case Some(header) =>
        var first := Before(header, ';');
        var kind := if first.Some? then first.value else header;
        Some((if "data:" <= kind then kind[5..] else kind, url[|header| + 1..]))
  }

  /** Only the first usable image counts. */
  function FirstImage(parts: seq<Part>): Option<(string, string)> {
    if |parts| == 0 then None
    else if parts[0].ImagePart? && DataUrl(parts[0].url).Some? then DataUrl(parts[0].url)
    else FirstImage(parts[1..])
  }

  function ImageOf(content: Content): Option<(string, string)> {
    if content.Parts? then FirstImage(content.parts) else None
  }

  function UserTexts(parts: seq<Part>): seq<OutMessage> {
    if |parts| == 0 then []
    else if parts[0].TextPart? && parts[0].text != "" then [User(parts[0].text)] + UserTexts(parts[1..])
    else UserTexts(parts[1..])
  }

  function ImageMessages(env: Env, mediaType: string, data: string, text: string): seq<OutMessage> {
    if !env.acceptsImage(mediaType, data) then [User(text)]
    else [Media(mediaType, data)] + if text != "" then [User(text)] else []
  }

  function UserMessages(env: Env, content: Content): seq<OutMessage> {
    match ImageOf(content)
    case Some((mediaType, data)) => ImageMessages(env, mediaType, data, TextOf(content))
    case None => if content.Parts? then UserTexts(content.parts) else [User(TextOf(content))]
  }

  function CallMessages(env: Env, calls: seq<ToolCall>): seq<OutMessage> {
    if |calls| == 0 then []
    else [AssistantTool(calls[0].id, calls[0].name, env.cleanArguments(calls[0].arguments))] + CallMessages(env, calls[1..])
  }

  function AssistantMessages(env: Env, m: ChatMessage): seq<OutMessage> {
    var text := TextOf(m.content);
    if |m.toolCalls| == 0 then [AssistantText(text)]
    else (if text != "" then [AssistantText(text)] else []) + CallMessages(env, m.toolCalls)
  }

  // ----- tool names -----

  type Names = map<string, string>

  function NameOf(names: Names, id: string): string {
    if id in names && names[id] != "" then names[id] else "unknown_tool"
  }

  /** `names` after the calls of one message, in order. */
  function Noted(names: Names, calls: seq<ToolCall>): Names {
    if |calls| == 0 then names
    else
      var last := calls[|calls| - 1];
      var before := Noted(names, calls[..|calls| - 1]);
      if last.id != "" && last.name != "" then before[last.id := last.name] else before
  }

  function NamesIn(names: Names, messages: seq<ChatMessage>): Names {
    if |messages| == 0 then names
    else
      var last := messages[|messages| - 1];
      var before := NamesIn(names, messages[..|messages| - 1]);
      if last.role == "assistant" then Noted(before, last.toolCalls) else before
  }

  // ----- messages -----

  function ConvertOne(env: Env, names: Names, m: ChatMessage): seq<OutMessage> {
    if m.role == "user" then UserMessages(env, m.content)
    else if m.role == "system" then [System(TextOf(m.content))]
    else if m.role == "assistant" then AssistantMessages(env, m)
    else if m.role == "tool" then [ToolResult(m.toolCallId, NameOf(names, m.toolCallId), TextOf(m.content))]
    else [User(TextOf(m.content))]
  }

  /** The results of `f` for each element, one after the other. */
  function FlatMap<A, B>(f: A -> seq<B>, s: seq<A>): seq<B> {
    if |s| == 0 then [] else FlatMap(f, s[..|s| - 1]) + f(s[|s| - 1])
  }

  function ConvertAll(env: Env, names: Names, messages: seq<ChatMessage>): seq<OutMessage> {
    FlatMap(m => ConvertOne(env, names, m), messages)
  }

  /** What a fresh converter makes of a conversation. */
  function Conversion(env: Env, messages: seq<ChatMessage>): seq<OutMessage> {
    ConvertAll(env, NamesIn(map[], messages), messages)
  }

  // ----- the name a tool result carries -----

  /** The name in the last of `calls` that has this id, ignoring empty ids and names. */
  function LastCallIn(calls: seq<ToolCall>, id: string): Option<string> {
    if |calls| == 0 then None
    else
      var last := calls[|calls| - 1];
      if id != "" && last.id == id && last.name != "" then Some(last.name) else LastCallIn(calls[..|calls| - 1], id)
  }

  /** The name in the last assistant call of the conversation that has this id. */
  function LastCall(messages: seq<ChatMessage>, id: string): Option<string> {
    if |messages| == 0 then None
    else
      var last, before := messages[|messages| - 1], messages[..|messages| - 1];
      if last.role == "assistant" && LastCallIn(last.toolCalls, id).Some? then LastCallIn(last.toolCalls, id)
      else LastCall(before, id)
  }

  lemma {:induction false} NotedIsLastCall(names: Names, calls: seq<ToolCall>, id: string)
    ensures LastCallIn(calls, id).Some? ==>
              id in Noted(names, calls) && Noted(names, calls)[id] == LastCallIn(calls, id).value
              && LastCallIn(calls, id).value != ""
    ensures LastCallIn(calls, id).None? ==>
              (id in Noted(names, calls) <==> id in names) && (id in names ==> Noted(names, calls)[id] == names[id])
  {
    if |calls| > 0 {
      NotedIsLastCall(names, calls[..|calls| - 1], id);
    }
  }

  lemma {:induction false} NamesAreLastCalls(names: Names, messages: seq<ChatMessage>, id: string)
    ensures LastCall(messages, id).Some? ==>
              id in NamesIn(names, messages) && NamesIn(names, messages)[id] == LastCall(messages, id).value
              && LastCall(messages, id).value != ""
    ensures LastCall(messages, id).None? ==>
              (id in NamesIn(names, messages) <==> id in names) && (id in names ==> NamesIn(names, messages)[id] == names[id])
  {
    if |messages| > 0 {
      var last, before := messages[|messages| - 1], messages[..|messages| - 1];
      NamesAreLastCalls(names, before, id);
      if last.role == "assistant" {
        NotedIsLastCall(NamesIn(names, before), last.toolCalls, id);
      }
    }
  }

  lemma FlatMapSnoc<A, B>(f: A -> seq<B>, s: seq<A>, x: A)
    ensures FlatMap(f, s + [x]) == FlatMap(f, s) + f(x)
  {
    assert (s + [x])[..|s|] == s;
  }

  lemma {:induction false} FlatMapAppend<A, B>(f: A -> seq<B>, a: seq<A>, b: seq<A>)
    ensures FlatMap(f, a + b) == FlatMap(f, a) + FlatMap(f, b)
    decreases |b|
  {
    if |b| == 0 {
      assert a + b == a;
    } else {
      var init, last := b[..|b| - 1], b[|b| - 1];
      FlatMapAppend(f, a, init);
      FlatMapSnoc(f, a + init, last);
      FlatMapSnoc(f, init, last);
      assert b == init + [last] && a + b == a + init + [last];
    }
  }

  lemma ConvertAllSnoc(env: Env, names: Names, messages: seq<ChatMessage>, m: ChatMessage)
    ensures ConvertAll(env, names, messages + [m]) == ConvertAll(env, names, messages) + ConvertOne(env, names, m)
  {
    FlatMapSnoc(x => ConvertOne(env, names, x), messages, m);
  }

  lemma ConvertAllAppend(env: Env, names: Names, a: seq<ChatMessage>, b: seq<ChatMessage>)
    ensures ConvertAll(env, names, a + b) == ConvertAll(env, names, a) + ConvertAll(env, names, b)
  {
    FlatMapAppend(x => ConvertOne(env, names, x), a, b);
  }

  /** A tool message becomes one result, in its place, named by the last assistant call of the whole conversation
      with its id, and `unknown_tool` if there is none. */
  lemma ToolMessageIsNamed(env: Env, before: seq<ChatMessage>, m: ChatMessage, after: seq<ChatMessage>)
    requires m.role == "tool"
    ensures var all := before + [m] + after;
      var name := if LastCall(all, m.toolCallId).Some? then LastCall(all, m.toolCallId).value else "unknown_tool";
      var names := NamesIn(map[], all);
      Conversion(env, all)
        == ConvertAll(env, names, before) + [ToolResult(m.toolCallId, name, TextOf(m.content))] + ConvertAll(env, names, after)
  {
    var all := before + [m] + after;
    var names := NamesIn(map[], all);
    NamesAreLastCalls(map[], all, m.toolCallId);
    ConvertAllAppend(env, names, before + [m], after);
    ConvertAllAppend(env, names, before, [m]);
    ConvertAllSnoc(env, names, [], m);
    assert [] + [m] == [m];
  }

  // ----- growing conversations -----

  lemma DropLast<T>(a: seq<T>, b: seq<T>)
    requires |b| > 0
    ensures (a + b)[..|a + b| - 1] == a + b[..|b| - 1] && (a + b)[|a + b| - 1] == b[|b| - 1]
  {}

  lemma {:induction false} LastCallAppend(a: seq<ChatMessage>, b: seq<ChatMessage>, id: string)
    ensures LastCall(a + b, id) == if LastCall(b, id).Some? then LastCall(b, id) else LastCall(a, id)
    decreases |b|
  {
    if |b| == 0 {
      assert a + b == a;
    } else {
      LastCallAppend(a, b[..|b| - 1], id);
      DropLast(a, b);
    }
  }

  lemma SplitEqual<T>(a: seq<T>, b: seq<T>, c: seq<T>, d: seq<T>)
    requires |a| == |c|
    ensures a + b == c + d <==> a == c && b == d
  {
    if a + b == c + d {
      assert a == (a + b)[..|a|] && c == (c + d)[..|a|];
      assert b == (a + b)[|a|..] && d == (c + d)[|a|..];
    }
  }

  lemma {:induction false} FlatMapSame<A, B>(f: A -> seq<B>, g: A -> seq<B>, s: seq<A>)
    requires forall i :: 0 <= i < |s| ==> |f(s[i])| == |g(s[i])|
    ensures |FlatMap(f, s)| == |FlatMap(g, s)|
    ensures FlatMap(f, s) == FlatMap(g, s) <==> forall i :: 0 <= i < |s| ==> f(s[i]) == g(s[i])
  {
    if |s| > 0 {
      var init, last := s[..|s| - 1], s[|s| - 1];
      FlatMapSame(f, g, init);
      SplitEqual(FlatMap(f, init), f(last), FlatMap(g, init), g(last));
      assert forall i :: 0 <= i < |init| ==> init[i] == s[i];
    }
  }

  /** The name a result with this id carries at the end of `messages`. */
  function NameAfter(messages: seq<ChatMessage>, id: string): string {
    if LastCall(messages, id).Some? then LastCall(messages, id).value else "unknown_tool"
  }

  lemma NamedByLastCall(messages: seq<ChatMessage>, id: string)
    ensures NameOf(NamesIn(map[], messages), id) == NameAfter(messages, id)
  {
    NamesAreLastCalls(map[], messages, id);
  }

  lemma OneMessageStays(env: Env, a: seq<ChatMessage>, b: seq<ChatMessage>, m: ChatMessage)
    ensures var some, all := NamesIn(map[], a), NamesIn(map[], a + b);
      && |ConvertOne(env, some, m)| == |ConvertOne(env, all, m)|
      && (ConvertOne(env, some, m) == ConvertOne(env, all, m)
          <==> (m.role == "tool" ==>
                  LastCall(b, m.toolCallId).None? || LastCall(b, m.toolCallId).value == NameAfter(a, m.toolCallId)))
  {
    if m.role == "tool" {
      LastCallAppend(a, b, m.toolCallId);
      NamedByLastCall(a, m.toolCallId);
      NamedByLastCall(a + b, m.toolCallId);
      var some, all := NamesIn(map[], a), NamesIn(map[], a + b);
      assert ConvertOne(env, some, m)[0].toolName == NameOf(some, m.toolCallId);
      assert ConvertOne(env, all, m)[0].toolName == NameOf(all, m.toolCallId);
    }
  }

  lemma SamePrefix<T>(a: seq<T>, b: seq<T>, rest: seq<T>)
    requires |a| == |b|
    ensures a <= b + rest <==> a == b
  {
    assert (b + rest)[..|b|] == b;
  }

  /** Later messages leave the conversion of the earlier ones as it was if and only if they call no tool, under an
      id already answered, by another name than that answer carries. */
  lemma EarlierMessagesStay(env: Env, a: seq<ChatMessage>, b: seq<ChatMessage>)
    ensures Conversion(env, a) <= Conversion(env, a + b)
       <==> forall i :: 0 <= i < |a| && a[i].role == "tool" ==>
              var later := LastCall(b, a[i].toolCallId);
              later.None? || later.value == NameAfter(a, a[i].toolCallId)
  {
    var some, all := NamesIn(map[], a), NamesIn(map[], a + b);
    forall i | 0 <= i < |a|
      ensures |ConvertOne(env, some, a[i])| == |ConvertOne(env, all, a[i])|
      ensures ConvertOne(env, some, a[i]) == ConvertOne(env, all, a[i])
         <==> (a[i].role == "tool" ==>
                 LastCall(b, a[i].toolCallId).None? || LastCall(b, a[i].toolCallId).value == NameAfter(a, a[i].toolCallId))
    {
      OneMessageStays(env, a, b, a[i]);
    }
    FlatMapSame(m => ConvertOne(env, some, m), m => ConvertOne(env, all, m), a);
    ConvertAllAppend(env, all, a, b);
    SamePrefix(Conversion(env, a), ConvertAll(env, all, a), ConvertAll(env, all, b));
  }

  // ----- the converter and its pool -----

  class MessageConverter {
    const env: Env
    var names: Names

    constructor (env: Env)
      ensures this.env == env && names == map[]
    {
      this.env, names := env, map[];
    }

    method NoteCalls(calls: seq<ToolCall>)
      modifies this
      ensures names == Noted(old(names), calls)
    {
      for i := 0 to |calls|
        invariant names == Noted(old(names), calls[..i])
      {
        assert calls[..i + 1][..i] == calls[..i];
        if calls[i].id != "" && calls[i].name != "" {
          names := names[calls[i].id := calls[i].name];
        }
      }
      assert calls[..|calls|] == calls;
    }

    method BuildToolIdMap(messages: seq<ChatMessage>)
      modifies this
      ensures names == NamesIn(old(names), messages)
    {
      ghost var before := names;
      var i := 0;
      while i < |messages|
        invariant 0 <= i <= |messages|
        invariant names == NamesIn(before, messages[..i])
      {
        assert messages[..i + 1][..i] == messages[..i];
        if messages[i].role == "assistant" {
          NoteCalls(messages[i].toolCalls);
        }
        i := i + 1;
      }
      assert messages[..i] == messages;
    }

    /** Two passes: the names first, so that calls later in the conversation count too. */
    method Convert(messages: seq<ChatMessage>) returns (result: seq<OutMessage>)
      modifies this
      ensures names == NamesIn(old(names), messages)
      ensures result == ConvertAll(env, names, messages)
    {
      BuildToolIdMap(messages);
      result := [];
      for i := 0 to |messages|
        invariant names == NamesIn(old(names), messages)
        invariant result == ConvertAll(env, names, messages[..i])
      {
        assert messages[..i + 1] == messages[..i] + [messages[i]];
        ConvertAllSnoc(env, names, messages[..i], messages[i]);
        result := result + ConvertOne(env, names, messages[i]);
      }
      assert messages[..|messages|] == messages;
    }
  }

  /** Converters at rest. `sync.Pool` may forget any of them, so taking one may also make a new one. */
  class ConverterPool {
    const env: Env
    var free: seq<MessageConverter>

    ghost predicate Valid()
      reads this, free
    {
      && (forall c | c in free :: c.env == env && c.names == map[])
      && forall i, j :: 0 <= i < j < |free| ==> free[i] != free[j]
    }

    constructor (env: Env)
      ensures Valid() && this.env == env && |free| == 0
    {
      this.env, free := env, [];
    }

    method Take() returns (converter: MessageConverter)
      requires Valid()
      modifies this
      ensures Valid() && converter !in free && converter.env == env && converter.names == map[]
      ensures fresh(converter) || converter in old(free)
      ensures forall c | c in free :: c in old(free)
    {
      if |free| > 0 {
        converter := free[|free| - 1];
        free := free[..|free| - 1];
      } else {
        converter := new MessageConverter(env);
      }
    }

    /** Every conversion is that of a fresh converter, and every converter goes back with an empty map. */
    method OpenAIToJetbrainsMessages(messages: seq<ChatMessage>) returns (result: seq<OutMessage>)
      requires Valid()
      modifies this, free
      ensures Valid() && result == Conversion(env, messages)
      ensures forall c | c in free :: fresh(c) || c in old(free)
    {
      var converter := Take();
      result := converter.Convert(messages);
      converter.names := map[];
      free := free + [converter];
    }
  }
}
