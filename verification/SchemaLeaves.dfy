/** Which inputs are rewritten to a fixed point by a single pass, for every map iteration order. */
module SchemaLeaves {
  import opened Wrappers
  import opened SchemaNames
  import opened ToolSchema
  import opened SchemaSoundness
  import opened SchemaFixpoint
  import opened ToolTransform

  /** A property schema that is not an object sits at nesting depth 6 (or is itself below it), reached through
      objects that the rewrite keeps as objects. */
  ghost predicate Reaches(schema: Json, depth: nat)
    decreases schema
  {
    if !schema.Obj? then depth > MAX_NESTING_DEPTH
    else
      && depth <= MAX_NESTING_DEPTH
      && UnionOf(schema.fields).None?
      && TypeOf(schema.fields) == Str("object")
      && |Props(schema)| <= MAX_PROPERTIES
      && exists key :: key in Props(schema) && Reaches(Props(schema)[key], depth + 1)
  }

  /** An object that the rewrite keeps as one, with a property `key`. */
  ghost predicate KeptObject(schema: Json, key: string) {
    && schema.Obj? && UnionOf(schema.fields).None? && TypeOf(schema.fields) == Str("object")
    && |Props(schema)| <= MAX_PROPERTIES && key in Props(schema)
  }

  lemma ReachesThrough(schema: Json, depth: nat, key: string)
    requires depth <= MAX_NESTING_DEPTH && KeptObject(schema, key) && Reaches(Props(schema)[key], depth + 1)
    ensures Reaches(schema, depth)
  {}

  lemma DeepestLeaf(schema: Json, depth: nat, r: Json)
    requires depth > MAX_NESTING_DEPTH && IsOutcome(schema, depth, r) && HasBareLeaf(r, depth)
    ensures Reaches(schema, depth)
  {
    DeepIsNotBare();
  }

  lemma PropertySource(props: Fields, depth: nat, out: Fields, name: string) returns (key: string)
    requires IsPropertiesOutcome(props, depth, out) && name in out
    ensures key in props && Rename(key) == name && IsOutcome(props[key], depth, out[name])
  {
    assert ComesFrom(props, depth, name, out[name]);
    key :| key in props && Rename(key) == name && IsOutcome(props[key], depth, out[name]);
  }

  lemma NoPropsInText(fields: Fields)
    ensures Props(NO_PROPERTIES) == map[]
    ensures HasObject(fields, "properties") ==> Props(TooManyProperties(|fields["properties"].fields|)) == map[]
  {}

  /** A result with properties is the rewrite of an object that the code keeps as one. */
  lemma WasObject(schema: Json, depth: nat, r: Json) returns (props: Fields)
    requires depth <= MAX_NESTING_DEPTH && IsOutcome(schema, depth, r) && Props(r) != map[]
    ensures schema.Obj? && UnionOf(schema.fields).None? && TypeOf(schema.fields) == Str("object")
    ensures props == Props(schema) && |props| <= MAX_PROPERTIES
    ensures IsPropertiesOutcome(props, depth + 1, Props(r))
  {
    if !schema.Obj? {
      LeafHasNoProps(r);
    } else if UnionOf(schema.fields).Some? {
      SimplifiedUnionIsFlat(schema.fields, UnionOf(schema.fields).value);
      LeafHasNoProps(r);
    } else if TypeOf(schema.fields) == Str("object") {
      NoPropsInText(schema.fields);
    } else if TypeOf(schema.fields) == Str("array") {
      ArraySchemaIsFlat(schema.fields);
      LeafHasNoProps(r);
    } else {
      SimpleSchemaIsFlat(schema.fields);
      LeafHasNoProps(r);
    }
    props := Props(schema);
  }

  lemma LeafSource(schema: Json, depth: nat, r: Json) returns (key: string, leaf: Json)
    requires depth <= MAX_NESTING_DEPTH && IsOutcome(schema, depth, r) && HasBareLeaf(r, depth)
    ensures KeptObject(schema, key)
    ensures IsOutcome(Props(schema)[key], depth + 1, leaf) && HasBareLeaf(leaf, depth + 1)
  {
    var name :| name in Props(r) && HasBareLeaf(Props(r)[name], depth + 1);
    leaf := Props(r)[name];
    var props := WasObject(schema, depth, r);
    key := PropertySource(props, depth + 1, Props(r), name);
  }

  lemma {:induction false} LeafBelowWasReached(schema: Json, depth: nat, key: string, leaf: Json)
    requires depth <= MAX_NESTING_DEPTH && KeptObject(schema, key)
    requires IsOutcome(Props(schema)[key], depth + 1, leaf) && HasBareLeaf(leaf, depth + 1)
    ensures Reaches(schema, depth)
    decreases 6 - depth, 0
  {
    LeafWasReached(Props(schema)[key], depth + 1, leaf);
    ReachesThrough(schema, depth, key);
  }

  /** A bare string at depth 6 comes from a schema there that is not an object. */
  lemma {:induction false} LeafWasReached(schema: Json, depth: nat, r: Json)
    requires IsOutcome(schema, depth, r) && HasBareLeaf(r, depth)
    ensures Reaches(schema, depth)
    decreases 6 - depth, 1
  {
    if depth > MAX_NESTING_DEPTH {
      DeepestLeaf(schema, depth, r);
    } else {
      var key, leaf := LeafSource(schema, depth, r);
      LeafBelowWasReached(schema, depth, key, leaf);
    }
  }

  // ----- every schema has a result -----

  lemma {:induction false} SomeProperties(props: Fields, keys: set<string>, depth: nat) returns (out: Fields)
    requires keys <= props.Keys
    ensures out.Keys == RenamedKeys(keys) && forall name | name in out :: ComesFrom(props, depth, name, out[name])
    decreases 6 - depth, 1, keys
  {
    if keys == {} {
      out := map[];
    } else {
      var key :| key in keys;
      var rest := SomeProperties(props, keys - {key}, depth);
      var value := SomeOutcome(props[key], depth);
      assert ComesFrom(props, depth, Rename(key), value);
      out := rest[Rename(key) := value];
      RenamedKeysAdd(keys - {key}, key);
      assert keys - {key} + {key} == keys;
    }
  }

  lemma {:induction false} SomeObjectOutcome(fields: Fields, depth: nat) returns (r: Json)
    requires depth <= MAX_NESTING_DEPTH
    ensures IsObjectOutcome(fields, depth, r)
    decreases 6 - depth, 0, 0
  {
    if !HasObject(fields, "properties") {
      r := NO_PROPERTIES;
    } else if |fields["properties"].fields| > MAX_PROPERTIES {
      r := TooManyProperties(|fields["properties"].fields|);
    } else {
      var props := fields["properties"].fields;
      var out := SomeProperties(props, props.Keys, depth + 1);
      r := ObjectSchema(fields, out);
      ObjectSchemaFields(fields, out);
    }
  }

  lemma {:induction false} SomeOutcome(schema: Json, depth: nat) returns (r: Json)
    ensures IsOutcome(schema, depth, r)
    decreases 6 - depth, 0, 1
  {
    if !schema.Obj? {
      r := BARE_STRING;
    } else if depth > MAX_NESTING_DEPTH {
      r := DEEP_OBJECT;
    } else if UnionOf(schema.fields).Some? {
      r := SimplifiedUnion(schema.fields, UnionOf(schema.fields).value);
    } else if TypeOf(schema.fields) == Str("array") {
      r := ArraySchema(schema.fields);
    } else if TypeOf(schema.fields) != Str("object") {
      r := SimpleSchema(schema.fields);
    } else {
      r := SomeObjectOutcome(schema.fields, depth);
    }
  }

  lemma ObjectFromProperties(schema: Json, depth: nat, key: string, out: Fields)
    requires depth <= MAX_NESTING_DEPTH && KeptObject(schema, key)
    requires IsPropertiesOutcome(Props(schema), depth + 1, out)
    ensures IsOutcome(schema, depth, ObjectSchema(schema.fields, out)) && Props(ObjectSchema(schema.fields, out)) == out
  {
    ObjectSchemaFields(schema.fields, out);
  }

  lemma PropertiesWith(props: Fields, depth: nat, key: string, leaf: Json) returns (out: Fields)
    requires key in props && IsOutcome(props[key], depth, leaf)
    ensures IsPropertiesOutcome(props, depth, out) && Rename(key) in out && out[Rename(key)] == leaf
  {
    var some := SomeProperties(props, props.Keys, depth);
    assert ComesFrom(props, depth, Rename(key), leaf);
    assert Rename(key) in RenamedKeys(props.Keys);
    out := some[Rename(key) := leaf];
  }

  lemma ObjectWith(schema: Json, depth: nat, key: string, leaf: Json) returns (r: Json)
    requires depth <= MAX_NESTING_DEPTH && KeptObject(schema, key)
    requires IsOutcome(Props(schema)[key], depth + 1, leaf) && HasBareLeaf(leaf, depth + 1)
    ensures IsOutcome(schema, depth, r) && HasBareLeaf(r, depth)
  {
    var out := PropertiesWith(Props(schema), depth + 1, key, leaf);
    r := ObjectSchema(schema.fields, out);
    ObjectFromProperties(schema, depth, key, out);
    assert Rename(key) in Props(r) && Props(r)[Rename(key)] == leaf;
  }

  /** Some iteration order keeps the bare string. */
  lemma {:induction false} LeafCanAppear(schema: Json, depth: nat) returns (r: Json)
    requires Reaches(schema, depth)
    ensures IsOutcome(schema, depth, r) && HasBareLeaf(r, depth)
    decreases 6 - depth
  {
    if !schema.Obj? {
      r := BARE_STRING;
    } else {
      var key :| key in Props(schema) && Reaches(Props(schema)[key], depth + 1);
      var leaf := LeafCanAppear(Props(schema)[key], depth + 1);
      r := ObjectWith(schema, depth, key, leaf);
    }
  }

  // ----- the parameters of a tool -----

  /** `i` is the last of `keys` to be emitted under its name. */
  predicate LastNamed(keys: seq<string>, i: int) {
    0 <= i < |keys| && forall j :: i < j < |keys| ==> Rename(keys[j]) != Rename(keys[i])
  }

  lemma {:induction false} PlacedLast(base: Fields, keys: seq<string>, values: seq<Json>, i: int)
    requires |keys| == |values| && LastNamed(keys, i)
    ensures Rename(keys[i]) in Placed(base, keys, values) && Placed(base, keys, values)[Rename(keys[i])] == values[i]
  {
    var last := |keys| - 1;
    if i < last {
      PlacedLast(base, keys[..last], values[..last], i);
    }
  }

  /** An entry comes from the last key emitted under its name or, if there is none, was there before. */
  lemma {:induction false} PlacedSource(base: Fields, keys: seq<string>, values: seq<Json>, name: string) returns (i: int)
    requires |keys| == |values| && name in Placed(base, keys, values)
    ensures if i < 0 then name in base && Placed(base, keys, values)[name] == base[name]
            else LastNamed(keys, i) && Rename(keys[i]) == name && Placed(base, keys, values)[name] == values[i]
  {
    var last := |keys| - 1;
    if keys == [] {
      i := -1;
    } else if Rename(keys[last]) == name {
      i := last;
    } else {
      i := PlacedSource(base, keys[..last], values[..last], name);
      assert i >= 0 ==> LastNamed(keys, i) by {
        assert i >= 0 ==> forall j :: i < j < last ==> keys[..last][j] == keys[j];
      }
    }
  }

  ghost predicate KeptReaches(props: Fields, keys: seq<string>, i: int) {
    LastNamed(keys, i) && keys[i] in props && Reaches(props[keys[i]], 0)
  }

  /** Among the properties that survive at the top level, one reaches a non-object at depth 6. */
  ghost predicate PropertiesReach(props: Fields) {
    if |props| > MAX_PROPERTIES then exists i :: KeptReaches(props, Preserved(props), i)
    else exists key :: key in props && Reaches(props[key], 0)
  }

  ghost predicate ParametersReach(p: Fields) {
    HasObject(p, "properties") && PropertiesReach(p["properties"].fields)
  }

  ghost predicate HasBareLeafIn(out: Fields) {
    exists name :: name in out && HasBareLeaf(out[name], 0)
  }

  lemma SmallLeafWasReached(props: Fields, out: Fields)
    requires |props| <= MAX_PROPERTIES && IsTopOutcome(props, out) && HasBareLeafIn(out)
    ensures PropertiesReach(props)
  {
    var name :| name in out && HasBareLeaf(out[name], 0);
    var key := PropertySource(props, 0, out, name);
    LeafWasReached(props[key], 0, out[name]);
  }

  lemma LargeLeafWasReached(props: Fields, out: Fields)
    requires |props| > MAX_PROPERTIES && IsTopOutcome(props, out) && HasBareLeafIn(out)
    ensures PropertiesReach(props)
  {
    var keys := Preserved(props);
    var values :| AreOutcomes(props, keys, values) && out == Simplified(props, values);
    var name :| name in out && HasBareLeaf(out[name], 0);
    var i := PlacedSource(map["data" := DataProperty(|props|)], keys, values, name);
    if i >= 0 {
      LeafWasReached(props[keys[i]], 0, values[i]);
      assert KeptReaches(props, keys, i);
    }
  }

  lemma SmallLeafCanAppear(props: Fields) returns (out: Fields)
    requires |props| <= MAX_PROPERTIES && PropertiesReach(props)
    ensures IsTopOutcome(props, out) && HasBareLeafIn(out)
  {
    var key :| key in props && Reaches(props[key], 0);
    var leaf := LeafCanAppear(props[key], 0);
    out := PropertiesWith(props, 0, key, leaf);
  }

  lemma {:induction false} SomeValues(props: Fields, keys: seq<string>, count: nat) returns (values: seq<Json>)
    requires count <= |keys| && forall i :: 0 <= i < |keys| ==> keys[i] in props
    ensures AreOutcomes(props, keys[..count], values)
  {
    if count == 0 {
      values := [];
    } else {
      var before := SomeValues(props, keys, count - 1);
      var value := SomeOutcome(props[keys[count - 1]], 0);
      OneMoreOutcome(props, keys, count - 1, before, value);
      values := before + [value];
    }
  }

  lemma ValuesWith(props: Fields, keys: seq<string>, i: int) returns (values: seq<Json>)
    requires forall j :: 0 <= j < |keys| ==> keys[j] in props
    requires KeptReaches(props, keys, i)
    ensures AreOutcomes(props, keys, values) && HasBareLeaf(values[i], 0)
  {
    var leaf := LeafCanAppear(props[keys[i]], 0);
    values := SomeValues(props, keys, |keys|);
    assert keys[..|keys|] == keys;
    values := values[i := leaf];
  }

  lemma LargeLeafCanAppear(props: Fields) returns (out: Fields)
    requires |props| > MAX_PROPERTIES && PropertiesReach(props)
    ensures IsTopOutcome(props, out) && HasBareLeafIn(out)
  {
    var keys := Preserved(props);
    var i :| KeptReaches(props, keys, i);
    var values := ValuesWith(props, keys, i);
    out := Simplified(props, values);
    PlacedLast(map["data" := DataProperty(|props|)], keys, values, i);
    assert HasBareLeaf(out[Rename(keys[i])], 0);
  }

  lemma LeafStaysAtTop(p: Fields, out: Fields)
    requires HasObject(p, "properties") && IsTopOutcome(p["properties"].fields, out) && HasBareLeafIn(out)
    ensures IsParametersOutcome(Some(p), ParametersWith(p, Some(out)))
    ensures HasBareLeafBelow(Obj(ParametersWith(p, Some(out))), 0)
  {
    ParametersWithFields(p, Some(out));
    assert Props(Obj(ParametersWith(p, Some(out)))) == out;
  }

  lemma LeafCanAppearAtTop(p: Fields) returns (r: Fields)
    requires ParametersReach(p)
    ensures IsParametersOutcome(Some(p), r) && HasBareLeafBelow(Obj(r), 0)
  {
    var props := p["properties"].fields;
    var out;
    if |props| > MAX_PROPERTIES { out := LargeLeafCanAppear(props); } else { out := SmallLeafCanAppear(props); }
    r := ParametersWith(p, Some(out));
    LeafStaysAtTop(p, out);
  }

  lemma NoLeaf(p: Fields, r: Fields)
    requires IsParametersOutcome(Some(p), r) && !ParametersReach(p)
    ensures !HasBareLeafBelow(Obj(r), 0)
  {
    if HasObject(p, "properties") {
      var props, out := p["properties"].fields, r["properties"].fields;
      if HasBareLeafIn(out) {
        if |props| > MAX_PROPERTIES { LargeLeafWasReached(props, out); } else { SmallLeafWasReached(props, out); }
      }
    } else {
      ParametersWithFields(p, None);
    }
  }

  lemma ChangesTwice(p: Fields) returns (r: Fields, r2: Fields)
    requires ParametersReach(p)
    ensures IsParametersOutcome(Some(p), r) && IsParametersOutcome(Some(r), r2) && r2 != CleanParameters(r)
  {
    r := LeafCanAppearAtTop(p);
    r2 := SettledParameters(r);
    ParametersAreSound(Some(p), r);
    SecondPassOnParameters(r, r2);
    RewritingAgain(Some(p), r, r2);
  }

  /** Rewriting the result of rewriting `p` never changes more than empty `required` lists, whatever the map
      orders, if and only if no surviving property of `p` reaches a non-object at depth 6. */
  lemma IdempotentExactlyWhen(p: Fields)
    ensures (forall r, r2 :: IsParametersOutcome(Some(p), r) && IsParametersOutcome(Some(r), r2) ==> r2 == CleanParameters(r))
       <==> !ParametersReach(p)
  {
    if ParametersReach(p) {
      var r, r2 := ChangesTwice(p);
    } else {
      forall r, r2 | IsParametersOutcome(Some(p), r) && IsParametersOutcome(Some(r), r2)
        ensures r2 == CleanParameters(r)
      {
        RewritingAgain(Some(p), r, r2);
        NoLeaf(p, r);
      }
    }
  }

  // ----- a concrete input -----

  /** An object nested `levels` deep around a schema that is just the string "x". */
  function Nested(levels: nat): Json {
    if levels == 0 then Str("x")
    else Obj(map["type" := Str("object"), "properties" := Obj(map["a" := Nested(levels - 1)])])
  }

  lemma {:induction false} NestedReaches(levels: nat)
    requires levels <= 6
    ensures Reaches(Nested(levels), 6 - levels)
  {
    if levels > 0 {
      NestedReaches(levels - 1);
      assert Props(Nested(levels)) == map["a" := Nested(levels - 1)];
      assert |Props(Nested(levels))| == 1;
      assert "a" in Props(Nested(levels)) && Reaches(Props(Nested(levels))["a"], 6 - levels + 1);
    }
  }

  /** Six nested objects around a non-object are not left alone by the second pass. */
  lemma RewritingIsNotIdempotent() returns (p: Fields, r: Fields, r2: Fields)
    ensures p == map["type" := Str("object"), "properties" := Obj(map["a" := Nested(6)])]
    ensures IsParametersOutcome(Some(p), r) && IsParametersOutcome(Some(r), r2) && r2 != CleanParameters(r)
  {
    p := map["type" := Str("object"), "properties" := Obj(map["a" := Nested(6)])];
    NestedReaches(6);
    assert |p["properties"].fields| == 1 && "a" in p["properties"].fields;
    r, r2 := ChangesTwice(p);
  }
}
