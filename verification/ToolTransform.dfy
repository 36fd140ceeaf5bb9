/** The rewriting code for tool parameters. Loops over a Go map pick the next key freely, so what holds of
    the result holds for every iteration order. */
module ToolTransform {
  import opened Wrappers
  import opened SchemaNames
  import opened ToolSchema

  lemma TypeIsNotSimple(fields: Fields)
    ensures "type" !in SimpleFields(fields)
    ensures map["type" := TypeOf(fields)] + SimpleFields(fields) == SimpleFields(fields)["type" := TypeOf(fields)]
  {
    assert "type" !in SIMPLE_KEYS;
  }

  /** The required names that are emitted, if there is a list of them. */
  method AddRequired(fields: Fields, names: set<string>, result: Fields) returns (r: Fields)
    ensures r == result + RequiredEntry(fields, names)
  {
    r := result;
    if HasArray(fields, "required") {
      var kept := ValidateRequiredFields(fields["required"].items, names);
      r := r["required" := if kept == [] then Null else Arr(kept)];
    }
  }

  method FinishObject(fields: Fields, out: Fields) returns (r: Fields)
    ensures Obj(r) == ObjectSchema(fields, out)
  {
    r := map["type" := Str("object"), "properties" := Obj(out), "additionalProperties" := Bool(false)];
    r := AddRequired(fields, out.Keys, r);
  }

  /** The loop shared by parameter objects (depth 0) and nested objects. */
  method TransformProperties(props: Fields, depth: nat) returns (out: Fields)
    ensures IsPropertiesOutcome(props, depth, out)
    decreases 6 - depth, 3
  {
    out := map[];
    var todo := props.Keys;
    while todo != {}
      invariant todo <= props.Keys
      invariant out.Keys == RenamedKeys(props.Keys - todo)
      invariant forall name | name in out :: ComesFrom(props, depth, name, out[name])
      decreases todo
    {
      var propName :| propName in todo;
      var validName := EmittedName(propName);
      if ValidName(validName) {
        var simplified := TransformPropertySchema(props[propName], depth);
        assert ComesFrom(props, depth, validName, Obj(simplified));
        RenamedKeysAdd(props.Keys - todo, propName);
        assert props.Keys - (todo - {propName}) == props.Keys - todo + {propName};
        out := out[validName := Obj(simplified)];
      }
      todo := todo - {propName};
    }
  }

  method TransformObject(fields: Fields, depth: nat) returns (r: Fields)
    requires depth <= MAX_NESTING_DEPTH
    ensures IsObjectOutcome(fields, depth, Obj(r))
    decreases 6 - depth, 1
  {
    if !HasObject(fields, "properties") {
      return NO_PROPERTIES.fields;
    }
    var props := fields["properties"].fields;
    if |props| > MAX_PROPERTIES {
      return TooManyProperties(|props|).fields;
    }
    var out := TransformProperties(props, depth + 1);
    r := FinishObject(fields, out);
    ObjectSchemaHolds(fields, out);
  }

  method TransformPropertySchema(schema: Json, depth: nat) returns (r: Fields)
    ensures IsOutcome(schema, depth, Obj(r))
    decreases 6 - depth, 2
  {
    if !schema.Obj? {
      return map["type" := Str("string")];
    }
    var fields := schema.fields;
    if depth > MAX_NESTING_DEPTH {
      return DEEP_OBJECT.fields;
    }
    var union := UnionOf(fields);
    if union.Some? {
      r := SimplifyUnionType(fields, union.value);
      return;
    }
    var schemaType := TypeOf(fields);
    if schemaType == Str("object") {
      r := TransformObject(fields, depth);
    } else if schemaType == Str("array") {
      r := TransformArray(fields);
    } else {
      r := CopySimpleProperties(fields, map["type" := schemaType]);
      TypeIsNotSimple(fields);
    }
  }

  lemma PlaceOneMore(base: Fields, keys: seq<string>, count: nat, values: seq<Json>, value: Json)
    requires count < |keys| && count == |values|
    ensures Placed(base, keys[..count + 1], values + [value])
         == Placed(base, keys[..count], values)[Rename(keys[count]) := value]
  {
    assert keys[..count + 1][..count] == keys[..count] && (values + [value])[..count] == values;
  }

  lemma OneMoreOutcome(props: Fields, keys: seq<string>, count: nat, values: seq<Json>, value: Json)
    requires count < |keys| && keys[count] in props
    requires AreOutcomes(props, keys[..count], values) && IsOutcome(props[keys[count]], 0, value)
    ensures AreOutcomes(props, keys[..count + 1], values + [value])
  {
    var before, after := keys[..count], keys[..count + 1];
    forall i | 0 <= i < count + 1 ensures after[i] in props && IsOutcome(props[after[i]], 0, (values + [value])[i]) {
      if i < count {
        assert after[i] == before[i];
      }
    }
  }

  method SimplifyComplexTool(props: Fields) returns (out: Fields)
    ensures IsSimplifiedOutcome(props, out)
  {
    ghost var base: Fields := map["data" := DataProperty(|props|)];
    out := map["data" := DataProperty(|props|)];
    ghost var values := [];
    var keys := SortKeys(props.Keys);
    var count := 0;
    while count < |keys| && count < MAX_PRESERVED
      invariant 0 <= count <= |keys| && count <= MAX_PRESERVED
      invariant AreOutcomes(props, keys[..count], values)
      invariant out == Placed(base, keys[..count], values)
    {
      var propName := keys[count];
      var validName := EmittedName(propName);
      if ValidName(validName) {
        var simplified := TransformPropertySchema(props[propName], 0);
        PlaceOneMore(base, keys, count, values, Obj(simplified));
        OneMoreOutcome(props, keys, count, values, Obj(simplified));
        out := out[validName := Obj(simplified)];
        values := values + [Obj(simplified)];
        count := count + 1;
      }
    }
    assert keys[..count] == Preserved(props);
  }

  /** The `properties` entry of a tool's parameters, when it is an object. */
  method TransformTop(props: Fields) returns (out: Fields)
    ensures IsTopOutcome(props, out)
  {
    if |props| > MAX_PROPERTIES {
      out := SimplifyComplexTool(props);
    } else {
      out := TransformProperties(props, 0);
    }
  }

  method Assemble(p: Fields, out: Option<Fields>) returns (r: Fields)
    ensures r == ParametersWith(p, out)
  {
    r := map[];
    if "type" in p {
      r := r["type" := p["type"]];
    }
    assert r == TypeEntry(p);
    if out.Some? {
      r := r["properties" := Obj(out.value)];
    }
    assert r == TypeEntry(p) + PropertiesEntry(out);
    r := AddRequired(p, NamesOf(out), r);
    r := r["additionalProperties" := Bool(false)];
  }

  lemma ParametersWithHolds(p: Fields, out: Fields)
    ensures HasObject(ParametersWith(p, Some(out)), "properties")
    ensures ParametersWith(p, Some(out))["properties"] == Obj(out)
  {}

  method TransformParameters(params: Option<Fields>) returns (r: Fields)
    ensures IsParametersOutcome(params, r)
  {
    if params.None? {
      return DEFAULT_PARAMETERS;
    }
    var p := params.value;
    if HasObject(p, "properties") {
      var out := TransformTop(p["properties"].fields);
      r := Assemble(p, Some(out));
      ParametersWithHolds(p, out);
    } else {
      r := Assemble(p, None);
    }
  }

  datatype Tool = Tool(kind: string, name: string, description: string, parameters: Option<Fields>)

  /** `after` is `before` with rewritten parameters and nothing else changed. */
  ghost predicate IsToolOutcome(before: Tool, after: Tool) {
    && after.parameters.Some?
    && after == before.(parameters := after.parameters)
    && IsParametersOutcome(before.parameters, after.parameters.value)
  }

  /** `at` lists in order the places of the tools whose own names are valid, and of no others. */
  ghost predicate UsableAt(tools: seq<Tool>, at: seq<nat>) {
    && (forall i, j :: 0 <= i < j < |at| ==> at[i] < at[j])
    && (forall i :: 0 <= i < |at| ==> at[i] < |tools| && ValidName(tools[at[i]].name))
    && (forall k: nat :: k < |tools| && ValidName(tools[k].name) ==> k in at)
  }

  /** The tools at these places, in order, with rewritten parameters. */
  ghost predicate RewrittenAt(tools: seq<Tool>, at: seq<nat>, validated: seq<Tool>) {
    |validated| == |at| && forall i :: 0 <= i < |at| ==> at[i] < |tools| && IsToolOutcome(tools[at[i]], validated[i])
  }

  lemma OneMorePlace(tools: seq<Tool>, at: seq<nat>, tool: Tool)
    requires UsableAt(tools, at) && ValidName(tool.name)
    ensures UsableAt(tools + [tool], at + [|tools|])
  {
    var all, more := tools + [tool], at + [|tools|];
    forall k: nat | k < |all| && ValidName(all[k].name) ensures k in more {
      if k < |tools| {
        assert k in at;
        var i :| 0 <= i < |at| && at[i] == k;
        assert more[i] == k;
      } else {
        assert more[|at|] == k;
      }
    }
  }

  lemma NoMorePlace(tools: seq<Tool>, at: seq<nat>, tool: Tool)
    requires UsableAt(tools, at) && !ValidName(tool.name)
    ensures UsableAt(tools + [tool], at)
  {
    var all := tools + [tool];
    forall k: nat | k < |all| && ValidName(all[k].name) ensures k in at {
      assert k < |tools| && all[k] == tools[k];
    }
  }

  lemma OneMoreRewritten(tools: seq<Tool>, at: seq<nat>, validated: seq<Tool>, tool: Tool, out: Tool)
    requires RewrittenAt(tools, at, validated)
    ensures RewrittenAt(tools + [tool], at, validated)
    ensures IsToolOutcome(tool, out) ==> RewrittenAt(tools + [tool], at + [|tools|], validated + [out])
  {}

  lemma {:induction false} PlacesAreUnique(tools: seq<Tool>, a: seq<nat>, b: seq<nat>, i: nat)
    requires UsableAt(tools, a) && UsableAt(tools, b) && i < |a|
    ensures i < |b| && a[i] == b[i]
  {
    forall j | 0 <= j < i ensures j < |b| && a[j] == b[j] {
      PlacesAreUnique(tools, a, b, j);
    }
    assert a[i] in b;
    var k :| 0 <= k < |b| && b[k] == a[i];
    if i < |b| {
      assert b[i] in a;
    }
  }

  /** Of any tools, those with valid names are kept, each once, in order and with rewritten parameters: at places that
      only the tools decide, whatever the map orders. */
  lemma PlacesDependOnTools(tools: seq<Tool>, a: seq<nat>, b: seq<nat>)
    requires UsableAt(tools, a) && UsableAt(tools, b)
    ensures a == b
  {
    if |a| < |b| {
      PlacesAreUnique(tools, b, a, |a|);
      assert false;
    } else if |b| < |a| {
      PlacesAreUnique(tools, a, b, |b|);
      assert false;
    }
    forall i | 0 <= i < |a| ensures i < |b| && a[i] == b[i] {
      PlacesAreUnique(tools, a, b, i);
    }
  }

  /** Tools with unusable names are skipped; every other tool appears once, in order, with rewritten parameters. */
  method ValidateAndTransformTools(tools: seq<Tool>) returns (validated: seq<Tool>, ghost at: seq<nat>)
    ensures |at| == |validated|
    ensures forall i, j :: 0 <= i < j < |at| ==> at[i] < at[j]
    ensures forall i :: 0 <= i < |at| ==>
                          at[i] < |tools| && ValidName(tools[at[i]].name) && IsToolOutcome(tools[at[i]], validated[i])
    ensures forall k: nat :: k < |tools| && ValidName(tools[k].name) ==> k in at
    ensures exists places :: UsableAt(tools, places) && RewrittenAt(tools, places, validated)
  {
    validated, at := [], [];
    var i := 0;
    while i < |tools|
      invariant 0 <= i <= |tools|
      invariant UsableAt(tools[..i], at) && RewrittenAt(tools[..i], at, validated)
    {
      assert tools[..i + 1] == tools[..i] + [tools[i]];
      if ValidName(tools[i].name) {
        var params := TransformParameters(tools[i].parameters);
        var out := Tool(tools[i].kind, tools[i].name, tools[i].description, Some(params));
        OneMorePlace(tools[..i], at, tools[i]);
        OneMoreRewritten(tools[..i], at, validated, tools[i], out);
        validated, at := validated + [out], at + [i];
      } else {
        NoMorePlace(tools[..i], at, tools[i]);
        OneMoreRewritten(tools[..i], at, validated, tools[i], tools[i]);
      }
      i := i + 1;
    }
    assert tools[..i] == tools;
  }
}
