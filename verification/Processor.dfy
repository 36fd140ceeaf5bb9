/** Request processing over the shared cache: answers from the cache are those a fresh conversion would give. */
module Processor {
  import opened Wrappers
  import opened Converter
  import LruSpec
  import LruTheorems
  import LruCache
  import SchemaNames
  import ToolSchema
  import ToolTransform

  /** What the general cache stores. */
  datatype Cached = Messages(messages: seq<OutMessage>) | Tools(tools: seq<ToolTransform.Tool>)

  const SECOND: int := 1_000_000_000
  const MESSAGE_TTL: int := 600 * SECOND
  const TOOLS_TTL: int := 1800 * SECOND

  /** Digests stand for SHA-1 over marshalled messages or tools. */
  datatype Digests = Digests(ofMessages: seq<ChatMessage> -> string, ofTools: seq<ToolTransform.Tool> -> string)

  function MessagesKey(d: Digests, messages: seq<ChatMessage>): string {
    "msg:" + d.ofMessages(messages)
  }

  function ToolsKey(d: Digests, tools: seq<ToolTransform.Tool>): string {
    "tools:" + d.ofTools(tools)
  }

  /** The conversations and tool lists that are asked for in the life of a processor. */
  datatype Asked = Asked(messages: iset<seq<ChatMessage>>, tools: iset<seq<ToolTransform.Tool>>)

  /** No two of them that differ have the same digest. */
  ghost predicate CollisionFree(d: Digests, asked: Asked) {
    && (forall a, b :: a in asked.messages && b in asked.messages && d.ofMessages(a) == d.ofMessages(b) ==> a == b)
    && (forall a, b :: a in asked.tools && b in asked.tools && d.ofTools(a) == d.ofTools(b) ==> a == b)
  }

  /** `out` is a possible result of validating `tools`. */
  ghost predicate Validated(tools: seq<ToolTransform.Tool>, out: seq<ToolTransform.Tool>) {
    exists at :: ToolTransform.UsableAt(tools, at) && ToolTransform.RewrittenAt(tools, at, out)
  }

  /** A tool as the upstream request defines it. */
  datatype Definition = Definition(name: string, description: string, schema: Option<ToolSchema.Fields>)

  /** The tools entry of the upstream request: none, the marshalled definitions, or an error. */
  datatype ToolsData = NoTools | ToolsJson(json: string) | MarshalError

  function DefinitionOf(tool: ToolTransform.Tool): Definition {
    Definition(tool.name, tool.description, tool.parameters)
  }

  function Definitions(tools: seq<ToolTransform.Tool>): (r: seq<Definition>)
    ensures |r| == |tools| && forall i :: 0 <= i < |tools| ==> r[i] == DefinitionOf(tools[i])
  {
    if |tools| == 0 then [] else Definitions(tools[..|tools| - 1]) + [DefinitionOf(tools[|tools| - 1])]
  }

  function DataOf(tools: seq<ToolTransform.Tool>, marshal: seq<Definition> -> Option<string>): ToolsData {
    if |tools| == 0 then NoTools
    else if marshal(Definitions(tools)).Some? then ToolsJson(marshal(Definitions(tools)).value)
    else MarshalError
  }

  /** What is sent upstream reads back as one definition for every tool with a valid name, in order, under its own
      name and description and with a possible rewrite of its parameters; nothing is sent if there is no such tool. */
  lemma ToolsReachUpstream(tools: seq<ToolTransform.Tool>, validated: seq<ToolTransform.Tool>,
                           marshal: seq<Definition> -> Option<string>, read: string -> Option<seq<Definition>>)
    returns (at: seq<nat>, sent: seq<Definition>)
    requires Validated(tools, validated)
    requires marshal(Definitions(validated)).Some? &&
             read(marshal(Definitions(validated)).value) == Some(Definitions(validated))
    ensures forall i, j :: 0 <= i < j < |at| ==> at[i] < at[j]
    ensures forall k: nat :: k in at <==> k < |tools| && SchemaNames.ValidName(tools[k].name)
    ensures if |at| == 0 then DataOf(validated, marshal) == NoTools && |sent| == 0
            else DataOf(validated, marshal).ToolsJson? && read(DataOf(validated, marshal).json) == Some(sent)
    ensures |sent| == |at| && forall i :: 0 <= i < |sent| ==>
              && at[i] < |tools| && sent[i].name == tools[at[i]].name && sent[i].description == tools[at[i]].description
              && ToolTransform.IsToolOutcome(tools[at[i]], tools[at[i]].(parameters := sent[i].schema))
  {
    at :| ToolTransform.UsableAt(tools, at) && ToolTransform.RewrittenAt(tools, at, validated);
    sent := Definitions(validated);
    forall i | 0 <= i < |sent|
      ensures && at[i] < |tools| && sent[i].name == tools[at[i]].name && sent[i].description == tools[at[i]].description
              && ToolTransform.IsToolOutcome(tools[at[i]], tools[at[i]].(parameters := sent[i].schema))
    {
      assert ToolTransform.IsToolOutcome(tools[at[i]], validated[i]);
      assert validated[i] == tools[at[i]].(parameters := validated[i].parameters);
    }
  }

  /** `value` under `key` is what the processor would compute for any request asked with that key. */
  ghost predicate Honest(env: Env, d: Digests, asked: Asked, key: string, value: Cached) {
    && (forall messages :: messages in asked.messages && key == MessagesKey(d, messages) ==>
          value == Messages(Conversion(env, messages)))
    && (forall tools :: tools in asked.tools && key == ToolsKey(d, tools) ==>
          value.Tools? && Validated(tools, value.tools))
  }

  lemma NoneValidated(tools: seq<ToolTransform.Tool>, out: seq<ToolTransform.Tool>)
    requires |tools| == |out| == 0
    ensures Validated(tools, out)
  {
    assert ToolTransform.UsableAt(tools, []) && ToolTransform.RewrittenAt(tools, [], out);
  }

  type Op = LruSpec.Op<Cached>

  ghost predicate HonestOp(env: Env, d: Digests, asked: Asked, op: Op) {
    op.Set? ==> Honest(env, d, asked, op.key, op.value)
  }

  ghost predicate AllHonest(env: Env, d: Digests, asked: Asked, ops: seq<Op>) {
    forall i :: 0 <= i < |ops| ==> HonestOp(env, d, asked, ops[i])
  }

  lemma KeysDiffer(d: Digests, messages: seq<ChatMessage>, tools: seq<ToolTransform.Tool>)
    ensures MessagesKey(d, messages) != ToolsKey(d, tools)
  {
    assert MessagesKey(d, messages)[0] == 'm' && ToolsKey(d, tools)[0] == 't';
  }

  lemma MessagesAreHonest(env: Env, d: Digests, asked: Asked, messages: seq<ChatMessage>)
    requires CollisionFree(d, asked) && messages in asked.messages
    ensures Honest(env, d, asked, MessagesKey(d, messages), Messages(Conversion(env, messages)))
  {
    var key := MessagesKey(d, messages);
    forall other | other in asked.messages && key == MessagesKey(d, other) ensures other == messages {
      assert key[4..] == d.ofMessages(messages) && MessagesKey(d, other)[4..] == d.ofMessages(other);
    }
    forall tools ensures key != ToolsKey(d, tools) {
      KeysDiffer(d, messages, tools);
    }
  }

  lemma ToolsAreHonest(env: Env, d: Digests, asked: Asked, tools: seq<ToolTransform.Tool>, out: seq<ToolTransform.Tool>)
    requires CollisionFree(d, asked) && tools in asked.tools && Validated(tools, out)
    ensures Honest(env, d, asked, ToolsKey(d, tools), Tools(out))
  {
    var key := ToolsKey(d, tools);
    forall other | other in asked.tools && key == ToolsKey(d, other) ensures other == tools {
      assert key[6..] == d.ofTools(tools) && ToolsKey(d, other)[6..] == d.ofTools(other);
    }
    forall messages ensures key != MessagesKey(d, messages) {
      KeysDiffer(d, messages, tools);
    }
  }

  ghost predicate HonestMap(env: Env, d: Digests, asked: Asked, m: map<string, LruSpec.Entry<Cached>>) {
    forall key | key in m :: Honest(env, d, asked, key, m[key].value)
  }

  lemma {:induction false} HonestRun(env: Env, d: Digests, asked: Asked, m: map<string, LruSpec.Entry<Cached>>, ops: seq<Op>)
    requires HonestMap(env, d, asked, m) && AllHonest(env, d, asked, ops)
    ensures HonestMap(env, d, asked, LruTheorems.RefRun(m, ops))
    decreases |ops|
  {
    if ops != [] {
      assert HonestOp(env, d, asked, ops[0]);
      forall i | 0 <= i < |ops[1..]| ensures HonestOp(env, d, asked, ops[1..][i]) {
        assert HonestOp(env, d, asked, ops[i + 1]);
      }
      HonestRun(env, d, asked, LruTheorems.RefStep(m, ops[0]), ops[1..]);
    }
  }

  /** Transparency over every run of the cache, at any capacity, under any interleaving of requests: as long as
      what is stored was computed for its key, a hit is what the request would have computed itself. */
  lemma HitsAreHonest(env: Env, d: Digests, asked: Asked, capacity: nat, ops: seq<Op>, key: string, now: int)
    requires AllHonest(env, d, asked, ops)
    ensures var hit := LruSpec.Answer(LruSpec.Run(capacity, [], ops), key, now);
      hit.Some? ==> Honest(env, d, asked, key, hit.value)
  {
    LruTheorems.HitIsFresh(capacity, ops, key, now);
    HonestRun(env, d, asked, map[], ops);
  }

  /** And a collision among the requests asked is served: the conversation stored last under the digest answers both. */
  lemma CollisionIsServed(env: Env, d: Digests, capacity: nat, a: seq<ChatMessage>, b: seq<ChatMessage>, now: int, later: int)
    requires capacity > 0 && d.ofMessages(a) == d.ofMessages(b) && later < now + MESSAGE_TTL
    ensures var stored := Messages(Conversion(env, a));
      LruSpec.Answer(LruSpec.Run(capacity, [], [LruSpec.Op.Set(MessagesKey(d, a), stored, MESSAGE_TTL, now)]),
                     MessagesKey(d, b), later) == Some(stored)
  {
    var stored: Cached := Messages(Conversion(env, a));
    var op := LruSpec.Op.Set(MessagesKey(d, a), stored, MESSAGE_TTL, now);
    assert [op][1..] == [];
    assert LruSpec.Run(capacity, [], [op]) == LruSpec.Step(capacity, [], op);
    assert LruSpec.Step(capacity, [], op) == [LruSpec.Entry(MessagesKey(d, a), stored, now + MESSAGE_TTL)];
  }

  // ----- the processor -----

  class RequestProcessor {
    const cache: LruCache.LruCache<Cached>
    const pool: ConverterPool
    const digests: Digests
    const marshal: seq<Definition> -> Option<string>
    ghost const asked: Asked

    static ghost predicate Apart(nodes: set<object>, pool: ConverterPool, free: seq<MessageConverter>) {
      pool !in nodes && forall c | c in free :: c !in nodes
    }

    ghost predicate Valid()
      reads cache, cache.Repr, cache.chain, pool, pool.free
    {
      && cache.Valid() && pool.Valid()
      && Apart(cache.Repr, pool, pool.free)
      && AllHonest(pool.env, digests, asked, cache.history)
    }

    constructor (capacity: nat, env: Env, digests: Digests, marshal: seq<Definition> -> Option<string>, ghost asked: Asked)
      ensures Valid() && pool.env == env && this.digests == digests && this.marshal == marshal && this.asked == asked
    {
      var cache := new LruCache.LruCache<Cached>(capacity);
      var pool := new ConverterPool(env);
      this.cache, this.pool, this.digests, this.marshal := cache, pool, digests, marshal;
      this.asked := asked;
    }

    method Store(key: string, value: Cached, ttl: int, now: int)
      requires Valid() && Honest(pool.env, digests, asked, key, value)
      modifies cache.Repr
      ensures Valid() && cache.history == old(cache.history) + [LruSpec.Op.Set(key, value, ttl, now)]
      ensures fresh(cache.Repr - old(cache.Repr))
    {
      cache.Set(key, value, ttl, now);
    }

    method Load(key: string, now: int) returns (hit: Option<Cached>)
      requires Valid()
      modifies cache.Repr
      ensures Valid() && cache.history == old(cache.history) + [LruSpec.Op.Get(key, now)]
      ensures cache.Repr == old(cache.Repr)
      ensures hit == LruSpec.Answer(old(cache.contents), key, now)
      ensures hit.Some? ==> Honest(pool.env, digests, asked, key, hit.value)
    {
      HitsAreHonest(pool.env, digests, asked, cache.capacity, cache.history, key, now);
      hit := cache.Get(key, now);
    }

    method ConvertFresh(messages: seq<ChatMessage>) returns (converted: seq<OutMessage>)
      requires Valid()
      modifies pool, pool.free
      ensures Valid() && converted == Conversion(pool.env, messages)
      ensures cache.history == old(cache.history) && cache.Repr == old(cache.Repr)
    {
      converted := pool.OpenAIToJetbrainsMessages(messages);
    }

    /** Hit or miss, before or after any eviction, the result is that of a fresh converter; only a miss stores it. */
    method ProcessMessages(messages: seq<ChatMessage>, now: int, later: int)
      returns (converted: seq<OutMessage>, cacheHit: bool)
      requires Valid() && CollisionFree(digests, asked) && messages in asked.messages
      modifies cache.Repr, pool, pool.free
      ensures Valid() && converted == Conversion(pool.env, messages)
      ensures cacheHit <==> LruSpec.Answer(old(cache.contents), MessagesKey(digests, messages), now).Some?
      ensures cache.history == old(cache.history) + [LruSpec.Op.Get(MessagesKey(digests, messages), now)]
        + if cacheHit then []
          else [LruSpec.Op.Set(MessagesKey(digests, messages), Messages(Conversion(pool.env, messages)), MESSAGE_TTL, later)]
    {
      var key := MessagesKey(digests, messages);
      var cached := Load(key, now);
      if cached.Some? && cached.value.Messages? {
        return cached.value.messages, true;
      }
      converted := ConvertFresh(messages);
      MessagesAreHonest(pool.env, digests, asked, messages);
      Store(key, Messages(converted), MESSAGE_TTL, later);
      cacheHit := false;
    }

    method BuildToolsData(tools: seq<ToolTransform.Tool>) returns (data: ToolsData)
      ensures data == DataOf(tools, marshal)
    {
      if |tools| == 0 {
        return NoTools;
      }
      var definitions: seq<Definition> := [];
      for i := 0 to |tools|
        invariant definitions == Definitions(tools[..i])
      {
        assert tools[..i + 1][..i] == tools[..i];
        definitions := definitions + [DefinitionOf(tools[i])];
      }
      assert tools[..|tools|] == tools;
      var json := marshal(definitions);
      data := if json.Some? then ToolsJson(json.value) else MarshalError;
    }

    /** The same for tools, whose validation is any result the map orders allow: the data sent upstream is that of
        the validated tools. */
    method ProcessTools(tools: seq<ToolTransform.Tool>, now: int, later: int)
      returns (data: ToolsData, validated: seq<ToolTransform.Tool>, cacheHit: bool)
      requires Valid() && CollisionFree(digests, asked) && tools in asked.tools
      modifies cache.Repr
      ensures Valid() && Validated(tools, validated) && data == DataOf(validated, marshal)
      ensures |tools| == 0 ==> !cacheHit && cache.history == old(cache.history)
      ensures |tools| > 0 ==>
                var hit := LruSpec.Answer(old(cache.contents), ToolsKey(digests, tools), now);
                && cacheHit == hit.Some? && (cacheHit ==> hit == Some(Tools(validated)))
                && cache.history == old(cache.history) + [LruSpec.Op.Get(ToolsKey(digests, tools), now)]
                     + if cacheHit then [] else [LruSpec.Op.Set(ToolsKey(digests, tools), Tools(validated), TOOLS_TTL, later)]
    {
      if |tools| == 0 {
        validated := [];
        NoneValidated(tools, validated);
        return NoTools, validated, false;
      }
      var key := ToolsKey(digests, tools);
      var cached := Load(key, now);
      if cached.Some? && cached.value.Tools? {
        data := BuildToolsData(cached.value.tools);
        return data, cached.value.tools, true;
      }
      ghost var at;
      validated, at := ToolTransform.ValidateAndTransformTools(tools);
      ToolsAreHonest(pool.env, digests, asked, tools, validated);
      Store(key, Tools(validated), TOOLS_TTL, later);
      data := BuildToolsData(validated);
      cacheHit := false;
    }
  }
}
