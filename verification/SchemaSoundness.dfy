/** What every rewritten schema looks like, for every input and every map iteration order. */
module SchemaSoundness {
  import opened Collections
  import opened Wrappers
  import opened SchemaNames
  import opened ToolSchema

  // ----- the shape of a rewritten property schema -----

  /** The properties an object schema declares; none for any other schema. */
  function Props(r: Json): (props: Fields)
    ensures forall name | name in props :: r.Obj? && HasObject(r.fields, "properties") && name in r.fields["properties"].fields
                                        && props[name] == r.fields["properties"].fields[name]
  {
    if r.Obj? && HasObject(r.fields, "properties") then r.fields["properties"].fields else map[]
  }

  ghost predicate ValidNames(props: Fields) {
    forall name | name in props :: ValidName(name)
  }

  /** `required`, if present, is `null` or a list of names of emitted properties. */
  ghost predicate RequiredIsEmitted(fields: Fields, names: set<string>) {
    "required" in fields ==>
      var required := fields["required"];
      required == Null ||
      (required.Arr? && required.items != [] && forall item | item in required.items :: item.Str? && item.s in names)
  }

  /** A closed object: at most 15 validly named properties and nothing undeclared. */
  ghost predicate IsClosedObject(fields: Fields) {
    && HasObject(fields, "properties")
    && fields - {"required"} == ClosedFields(fields["properties"].fields)
    && |fields["properties"].fields| <= MAX_PROPERTIES
    && ValidNames(fields["properties"].fields)
    && RequiredIsEmitted(fields, fields["properties"].fields.Keys)
  }

  /** No union and nothing nested: an array of typed items or a copied simple schema. */
  ghost predicate IsFlat(fields: Fields) {
    && UnionOf(fields).None?
    && TypeOf(fields) != Str("object")
    && Obj(fields) == if TypeOf(fields) == Str("array") then ArraySchema(fields) else SimpleSchema(fields)
  }

  /** The normal form of rewriting at depth `depth`. */
  ghost predicate Canonical(r: Json, depth: nat)
    decreases 6 - depth
  {
    if depth > MAX_NESTING_DEPTH then r == BARE_STRING || r == DEEP_OBJECT
    else
      && r.Obj?
      && if IsClosedObject(r.fields) then
           forall name | name in Props(r) :: Canonical(Props(r)[name], depth + 1)
         else IsFlat(r.fields)
  }

  /** No schema below `r` has more than 15 properties, and none at depth 6 has any. */
  ghost predicate Bounded(r: Json, depth: nat)
    decreases r
  {
    && |Props(r)| <= MAX_PROPERTIES
    && (depth > MAX_NESTING_DEPTH ==> Props(r) == map[])
    && forall name | name in Props(r) :: Bounded(Props(r)[name], depth + 1)
  }

  ghost predicate AllCanonical(props: Fields, depth: nat) {
    forall name | name in props :: Canonical(props[name], depth)
  }

  ghost predicate AllBounded(props: Fields, depth: nat) {
    forall name | name in props :: Bounded(props[name], depth)
  }

  lemma {:induction false} RenamedKeysSize(keys: set<string>)
    ensures |RenamedKeys(keys)| <= |keys|
  {
    if keys != {} {
      var key :| key in keys;
      RenamedKeysSize(keys - {key});
      RenamedKeysAdd(keys - {key}, key);
      assert keys - {key} + {key} == keys;
    } else {
      assert RenamedKeys(keys) == {};
    }
  }

  lemma StringSchemaIsFlat(description: string)
    ensures IsFlat(StringSchema(description).fields)
  {
    var fields := StringSchema(description).fields;
    assert "description" in SIMPLE_KEYS by { assert SIMPLE_KEYS[0] == "description"; }
    assert SimpleFields(fields) == map["description" := Str(description)];
  }

  lemma SimplifiedUnionIsFlat(fields: Fields, union: string)
    ensures IsFlat(SimplifiedUnion(fields, union).fields)
  {
    var r := SimplifiedUnion(fields, union).fields;
    assert "description" in SIMPLE_KEYS by { assert SIMPLE_KEYS[0] == "description"; }
    assert SimpleFields(r) == map["description" := r["description"]];
  }

  lemma BareStringIsFlat()
    ensures IsFlat(BARE_STRING.fields)
  {
    assert SimpleFields(BARE_STRING.fields) == map[];
  }

  lemma ArraySchemaIsFlat(fields: Fields)
    ensures IsFlat(ArraySchema(fields).fields)
  {}

  lemma SimpleKeysAreSimple(key: string)
    requires key in SIMPLE_KEYS
    ensures key != "type" && key != "anyOf" && key != "oneOf" && key != "allOf"
    ensures key != "properties" && key != "required" && key != "additionalProperties" && key != "items"
  {}

  lemma SimpleSchemaIsFlat(fields: Fields)
    requires TypeOf(fields) != Str("object") && TypeOf(fields) != Str("array")
    ensures IsFlat(SimpleSchema(fields).fields)
  {
    var r := SimpleSchema(fields).fields;
    forall key | key in r ensures key == "type" || key == "format" || key in SIMPLE_KEYS {}
    forall key | key in SIMPLE_KEYS
      ensures key != "type" && key != "anyOf" && key != "oneOf" && key != "allOf"
    {
      SimpleKeysAreSimple(key);
    }
    assert SimpleFields(r) == SimpleFields(fields);
  }

  lemma Without(fields: Fields, core: Fields, key: string)
    requires fields - {"required"} == core && key != "required"
    ensures key in fields <==> key in core
    ensures key in core ==> fields[key] == core[key]
  {
    assert key in fields - {"required"} <==> key in fields;
  }

  lemma ClosedObjectKeys(fields: Fields)
    requires IsClosedObject(fields)
    ensures UnionOf(fields).None? && "items" !in fields && TypeOf(fields) == Str("object")
  {
    var core := ClosedFields(fields["properties"].fields);
    Without(fields, core, "anyOf");
    Without(fields, core, "oneOf");
    Without(fields, core, "allOf");
    Without(fields, core, "items");
    Without(fields, core, "type");
  }

  lemma FlatIsNotClosed(fields: Fields)
    requires IsFlat(fields)
    ensures !IsClosedObject(fields)
  {
    if IsClosedObject(fields) {
      ClosedObjectKeys(fields);
    }
  }

  lemma LeafHasNoProps(r: Json)
    requires r.Obj? && (IsFlat(r.fields) || r == BARE_STRING || r == DEEP_OBJECT)
    ensures Props(r) == map[]
  {
    if IsFlat(r.fields) && TypeOf(r.fields) != Str("array") {
      forall key | key in SIMPLE_KEYS ensures key != "properties" {
        SimpleKeysAreSimple(key);
      }
    }
  }

  lemma FlatIsCanonical(r: Json, depth: nat)
    requires r.Obj? && IsFlat(r.fields) && depth <= MAX_NESTING_DEPTH
    ensures Canonical(r, depth) && Bounded(r, depth)
  {
    FlatIsNotClosed(r.fields);
    LeafHasNoProps(r);
  }

  lemma LeafIsCanonical(r: Json, depth: nat)
    requires r == BARE_STRING || (depth > MAX_NESTING_DEPTH && r == DEEP_OBJECT)
    ensures Canonical(r, depth) && Bounded(r, depth)
  {
    BareStringIsFlat();
    LeafHasNoProps(r);
    FlatIsNotClosed(BARE_STRING.fields);
  }

  lemma ObjectSchemaFields(fields: Fields, out: Fields)
    ensures ObjectSchema(fields, out).fields - {"required"} == ClosedFields(out)
    ensures HasObject(ObjectSchema(fields, out).fields, "properties")
    ensures ObjectSchema(fields, out).fields["properties"] == Obj(out)
  {}

  lemma RequiredEntryIsEmitted(fields: Fields, names: set<string>)
    ensures RequiredIsEmitted(RequiredEntry(fields, names), names)
  {
    if HasArray(fields, "required") {
      var kept := KeepRequired(fields["required"].items, names);
      forall item | item in kept ensures item.Str? && item.s in names {
        var i :| 0 <= i < |kept| && kept[i] == item;
      }
    }
  }

  lemma ObjectSchemaRequired(fields: Fields, out: Fields)
    ensures RequiredIsEmitted(ObjectSchema(fields, out).fields, out.Keys)
  {
    var r := ObjectSchema(fields, out).fields;
    RequiredEntryIsEmitted(fields, out.Keys);
    var entry := RequiredEntry(fields, out.Keys);
    assert "required" in r ==> "required" in entry && r["required"] == entry["required"];
  }

  lemma ObjectSchemaIsClosed(fields: Fields, props: Fields, out: Fields)
    requires |props| <= MAX_PROPERTIES && out.Keys == RenamedKeys(props.Keys)
    ensures IsClosedObject(ObjectSchema(fields, out).fields)
    ensures ObjectSchema(fields, out).fields["properties"].fields == out
  {
    RenamedKeysAreValid(props.Keys);
    RenamedKeysSize(props.Keys);
    assert |out| == |out.Keys| && |props| == |props.Keys|;
    ObjectSchemaFields(fields, out);
    ObjectSchemaRequired(fields, out);
  }

  lemma {:induction false} PropertiesOutcomeIsCanonical(props: Fields, depth: nat, out: Fields)
    requires IsPropertiesOutcome(props, depth, out)
    ensures AllCanonical(out, depth) && AllBounded(out, depth)
    decreases 6 - depth, 1
  {
    forall name | name in out ensures Canonical(out[name], depth) && Bounded(out[name], depth) {
      assert ComesFrom(props, depth, name, out[name]);
      var key :| key in props && Rename(key) == name && IsOutcome(props[key], depth, out[name]);
      OutcomeIsCanonical(props[key], depth, out[name]);
    }
  }

  lemma {:induction false} ObjectOutcomeIsCanonical(fields: Fields, depth: nat, r: Json)
    requires depth <= MAX_NESTING_DEPTH && IsObjectOutcome(fields, depth, r)
    ensures Canonical(r, depth) && Bounded(r, depth)
    decreases 6 - depth, 0, 0
  {
    if !HasObject(fields, "properties") {
      StringSchemaIsFlat("Object without properties - provide as JSON string");
      FlatIsCanonical(r, depth);
    } else if |fields["properties"].fields| > MAX_PROPERTIES {
      StringSchemaIsFlat(TooManyProperties(|fields["properties"].fields|).fields["description"].s);
      FlatIsCanonical(r, depth);
    } else {
      var props, out := fields["properties"].fields, r.fields["properties"].fields;
      ObjectSchemaIsClosed(fields, props, out);
      PropertiesOutcomeIsCanonical(props, depth + 1, out);
    }
  }

  /** Every rewritten property schema is in normal form. */
  lemma {:induction false} OutcomeIsCanonical(schema: Json, depth: nat, r: Json)
    requires IsOutcome(schema, depth, r)
    ensures Canonical(r, depth) && Bounded(r, depth)
    decreases 6 - depth, 0, 1
  {
    if !schema.Obj? {
      LeafIsCanonical(r, depth);
    } else if depth > MAX_NESTING_DEPTH {
      LeafIsCanonical(r, depth);
    } else {
      var fields := schema.fields;
      var t := TypeOf(fields);
      if UnionOf(fields).Some? {
        SimplifiedUnionIsFlat(fields, UnionOf(fields).value);
        FlatIsCanonical(r, depth);
      } else if t == Str("object") {
        ObjectOutcomeIsCanonical(fields, depth, r);
      } else if t == Str("array") {
        ArraySchemaIsFlat(fields);
        FlatIsCanonical(r, depth);
      } else {
        SimpleSchemaIsFlat(fields);
        FlatIsCanonical(r, depth);
      }
    }
  }

  // ----- structural soundness -----

  /** Sound at this schema and at every schema below it: no union, arrays say only their item type, and
      whatever is an object or mentions properties is a closed object. */
  ghost predicate Sound(r: Json)
    decreases r
  {
    && r.Obj?
    && UnionOf(r.fields).None?
    && ("items" in r.fields ==> r.fields["items"].Obj? && r.fields["items"].fields.Keys == {"type"})
    && (TypeOf(r.fields) == Str("object") || "properties" in r.fields || "required" in r.fields ==>
          && IsClosedObject(r.fields)
          && forall name | name in Props(r) :: Sound(Props(r)[name]))
  }

  lemma FlatIsSound(r: Json)
    requires r.Obj? && IsFlat(r.fields)
    ensures Sound(r)
  {
    if TypeOf(r.fields) != Str("array") {
      forall key | key in SIMPLE_KEYS ensures key != "properties" && key != "required" && key != "items" {
        SimpleKeysAreSimple(key);
      }
    }
  }

  lemma {:induction false} CanonicalIsSound(r: Json, depth: nat)
    requires Canonical(r, depth)
    ensures Sound(r)
    decreases 6 - depth
  {
    if depth > MAX_NESTING_DEPTH {
      BareStringIsFlat();
      StringSchemaIsFlat("Deeply nested object - provide as JSON string");
      FlatIsSound(r);
    } else if IsClosedObject(r.fields) {
      ClosedObjectKeys(r.fields);
      forall name | name in Props(r) ensures Sound(Props(r)[name]) {
        CanonicalIsSound(Props(r)[name], depth + 1);
      }
    } else {
      FlatIsSound(r);
    }
  }

  // ----- size -----

  function Sum(sizes: seq<nat>): nat {
    if |sizes| == 0 then 0 else sizes[0] + Sum(sizes[1..])
  }

  lemma {:induction false} SumBound(sizes: seq<nat>, count: nat, limit: nat)
    requires |sizes| <= count && forall i :: 0 <= i < |sizes| ==> sizes[i] <= limit
    ensures Sum(sizes) <= count * limit
  {
    if sizes != [] {
      SumBound(sizes[1..], count - 1, limit);
      assert count * limit == (count - 1) * limit + limit;
    }
  }

  ghost predicate Lists(names: seq<string>, keys: set<string>) {
    && |names| == |keys|
    && (forall i :: 0 <= i < |names| ==> names[i] in keys)
    && forall key | key in keys :: key in names
  }

  /** The keys in some order, each once. */
  ghost function Listing(keys: set<string>): (names: seq<string>)
    ensures Lists(names, keys)
  {
    SortedKeysAreSorted(keys);
    assert Lists(SortedKeys(keys), keys);
    var names :| Lists(names, keys);
    names
  }

  /** The schemas reached from `r` through `properties`, `r` included. */
  ghost function Nodes(r: Json): nat
    decreases r, 1
  {
    1 + Sum(SizesBelow(r))
  }

  /** The sizes of the schemas under the properties of `r`, each listed once. */
  ghost function SizesBelow(r: Json): (sizes: seq<nat>)
    ensures |sizes| == |Props(r)|
    decreases r, 0
  {
    var names := Listing(Props(r).Keys);
    seq(|names|, i requires 0 <= i < |names| => Nodes(Props(r)[names[i]]))
  }

  /** The size of a full tree with 15 children per node and `levels` levels below its root. */
  function FullTree(levels: nat): nat {
    if levels == 0 then 1 else 1 + MAX_PROPERTIES * FullTree(levels - 1)
  }

  lemma FullTreeSize()
    ensures 14 * FullTree(7) == 15 * 15 * 15 * 15 * 15 * 15 * 15 * 15 - 1
  {
    assert FullTree(1) == 16;
    assert FullTree(3) == 3616;
    assert FullTree(5) == 813616;
    assert FullTree(7) == 183063616;
  }

  /** A node is no larger than its width allows. */
  lemma NodeIsSmall(r: Json, limit: nat)
    requires |Props(r)| <= MAX_PROPERTIES
    requires forall name | name in Props(r) :: Nodes(Props(r)[name]) <= limit
    ensures Nodes(r) <= 1 + MAX_PROPERTIES * limit
  {
    var names := Listing(Props(r).Keys);
    forall i | 0 <= i < |names| ensures SizesBelow(r)[i] <= limit {
      assert names[i] in Props(r);
    }
    SumBound(SizesBelow(r), MAX_PROPERTIES, limit);
  }

  /** A schema over properties at depth `depth`. */
  lemma {:induction false} LevelIsSmall(r: Json, depth: nat)
    requires depth <= 6 && |Props(r)| <= MAX_PROPERTIES
    requires AllBounded(Props(r), depth)
    ensures Nodes(r) <= 1 + MAX_PROPERTIES * FullTree(6 - depth)
    decreases 6 - depth, 1
  {
    forall name | name in Props(r) ensures Nodes(Props(r)[name]) <= FullTree(6 - depth) {
      BoundedIsSmall(Props(r)[name], depth);
    }
    NodeIsSmall(r, FullTree(6 - depth));
  }

  /** Whatever came in, a schema at depth `depth` is no larger than a full tree. */
  lemma {:induction false} BoundedIsSmall(r: Json, depth: nat)
    requires depth <= 6 && Bounded(r, depth)
    ensures Nodes(r) <= FullTree(6 - depth)
    decreases 6 - depth, 0
  {
    if depth <= MAX_NESTING_DEPTH {
      LevelIsSmall(r, depth + 1);
    } else {
      NodeIsSmall(r, 0);
    }
  }

  // ----- the parameters of a tool -----

  lemma DataIsValidName()
    ensures ValidName("data")
  {
    assert forall i :: 0 <= i < |"data"| ==> NameChar("data"[i]);
  }

  lemma UpdateSize(fields: Fields, key: string, value: Json)
    ensures |fields[key := value]| <= |fields| + 1
  {
    assert fields[key := value].Keys == fields.Keys + {key};
    assert |fields[key := value]| == |fields[key := value].Keys| && |fields| == |fields.Keys|;
  }

  lemma OneMoreIsCanonical(before: Fields, schema: Json, depth: nat, key: string, value: Json)
    requires ValidNames(before) && AllCanonical(before, depth) && AllBounded(before, depth)
    requires IsOutcome(schema, depth, value)
    ensures var out := before[Rename(key) := value];
      ValidNames(out) && |out| <= |before| + 1 && AllCanonical(out, depth) && AllBounded(out, depth)
  {
    OutcomeIsCanonical(schema, depth, value);
    RenameIsSound(key);
    UpdateSize(before, Rename(key), value);
  }

  /** What entering rewritten properties beside `data` leaves. */
  lemma {:induction false} PlacedIsCanonical(base: Fields, props: Fields, keys: seq<string>, values: seq<Json>)
    requires AreOutcomes(props, keys, values)
    requires ValidNames(base) && AllCanonical(base, 0) && AllBounded(base, 0)
    ensures var out := Placed(base, keys, values);
      ValidNames(out) && |out| <= |base| + |keys| && AllCanonical(out, 0) && AllBounded(out, 0)
  {
    if keys != [] {
      var last := |keys| - 1;
      assert AreOutcomes(props, keys[..last], values[..last]);
      PlacedIsCanonical(base, props, keys[..last], values[..last]);
      OneMoreIsCanonical(Placed(base, keys[..last], values[..last]), props[keys[last]], 0, keys[last], values[last]);
    }
  }

  lemma DataIsCanonical(count: nat, base: Fields, depth: nat)
    requires depth <= MAX_NESTING_DEPTH && base == map["data" := DataProperty(count)]
    ensures |base| == 1 && ValidNames(base)
    ensures AllCanonical(base, depth) && AllBounded(base, depth)
  {
    DataIsValidName();
    StringSchemaIsFlat(DataProperty(count).fields["description"].s);
    FlatIsCanonical(DataProperty(count), depth);
  }

  lemma SimplifiedIsCanonical(props: Fields, out: Fields)
    requires IsSimplifiedOutcome(props, out)
    ensures ValidNames(out) && |out| <= 6 && AllCanonical(out, 0) && AllBounded(out, 0)
  {
    var values :| AreOutcomes(props, Preserved(props), values) && out == Simplified(props, values);
    var base: Fields := map["data" := DataProperty(|props|)];
    DataIsCanonical(|props|, base, 0);
    PlacedIsCanonical(base, props, Preserved(props), values);
  }

  lemma TopOutcomeIsCanonical(props: Fields, out: Fields)
    requires IsTopOutcome(props, out)
    ensures ValidNames(out) && |out| <= MAX_PROPERTIES && AllCanonical(out, 0) && AllBounded(out, 0)
  {
    if |props| > MAX_PROPERTIES {
      SimplifiedIsCanonical(props, out);
    } else {
      PropertiesOutcomeIsCanonical(props, 0, out);
      RenamedKeysAreValid(props.Keys);
      RenamedKeysSize(props.Keys);
      assert |out| == |out.Keys| && |props| == |props.Keys|;
    }
  }

  /** The shape of rewritten parameters: four possible entries, closed, with sound properties. */
  ghost predicate SoundParameters(r: Fields) {
    && r.Keys <= {"type", "properties", "required", "additionalProperties"}
    && "additionalProperties" in r && r["additionalProperties"] == Bool(false)
    && ("properties" in r ==> r["properties"].Obj?)
    && |Props(Obj(r))| <= MAX_PROPERTIES
    && ValidNames(Props(Obj(r)))
    && RequiredIsEmitted(r, Props(Obj(r)).Keys)
    && AllCanonical(Props(Obj(r)), 0)
    && AllBounded(Props(Obj(r)), 0)
  }

  lemma ParametersWithFields(p: Fields, out: Option<Fields>)
    ensures var r := ParametersWith(p, out);
      && r.Keys <= {"type", "properties", "required", "additionalProperties"}
      && "additionalProperties" in r && r["additionalProperties"] == Bool(false)
      && ("properties" in r <==> out.Some?)
      && (out.Some? ==> r["properties"] == Obj(out.value))
      && ("required" in r <==> HasArray(p, "required"))
      && ("required" in r ==> r["required"] == RequiredEntry(p, NamesOf(out))["required"])
  {}

  lemma ParametersAreSound(params: Option<Fields>, r: Fields)
    requires IsParametersOutcome(params, r)
    ensures SoundParameters(r)
  {
    if params.Some? {
      var p := params.value;
      var out := if HasObject(p, "properties") then Some(r["properties"].fields) else None;
      if out.Some? {
        TopOutcomeIsCanonical(p["properties"].fields, out.value);
      }
      ParametersWithFields(p, out);
      RequiredEntryIsEmitted(p, NamesOf(out));
    }
  }

  lemma PropertiesAreSound(props: Fields)
    requires AllCanonical(props, 0)
    ensures forall name | name in props :: Sound(props[name])
  {
    forall name | name in props ensures Sound(props[name]) {
      CanonicalIsSound(props[name], 0);
    }
  }

  /** Soundness of rewritten parameters at every level, and their size: at most 7 levels of properties, hence at
      most (15^8 - 1) / 14 schemas, whatever the input. */
  lemma RewrittenParameters(params: Option<Fields>, r: Fields)
    requires IsParametersOutcome(params, r)
    ensures SoundParameters(r)
    ensures forall name | name in Props(Obj(r)) :: Sound(Props(Obj(r))[name])
    ensures 14 * Nodes(Obj(r)) <= 15 * 15 * 15 * 15 * 15 * 15 * 15 * 15 - 1
  {
    ParametersAreSound(params, r);
    PropertiesAreSound(Props(Obj(r)));
    LevelIsSmall(Obj(r), 0);
    FullTreeSize();
  }

  // ----- nothing is lost while there are at most 15 properties -----

  /** The kept required names are exactly the renamed required names that are emitted. */
  lemma {:induction false} KeepRequiredIs(items: seq<Json>, names: set<string>, name: string)
    ensures Str(name) in KeepRequired(items, names)
       <==> name in names && exists item :: item in items && item.Str? && Rename(item.s) == name
  {
    if items != [] {
      var last := |items| - 1;
      KeepRequiredIs(items[..last], names, name);
      assert items == items[..last] + [items[last]];
    }
  }

  /** The entry `required` of `r` demands exactly what `required` of `fields` demands of existing properties. */
  ghost predicate DemandsTheSame(fields: Fields, props: Fields, r: Fields) {
    HasArray(fields, "required") ==>
      && "required" in r
      && forall name | name in RenamedKeys(props.Keys) ::
           (r["required"].Arr? && Str(name) in r["required"].items)
           <==> exists item :: item in fields["required"].items && item.Str? && Rename(item.s) == name
  }

  lemma RequiredEntryDemands(fields: Fields, props: Fields)
    ensures DemandsTheSame(fields, props, RequiredEntry(fields, RenamedKeys(props.Keys)))
  {
    if HasArray(fields, "required") {
      forall name | name in RenamedKeys(props.Keys)
        ensures Str(name) in KeepRequired(fields["required"].items, RenamedKeys(props.Keys))
           <==> exists item :: item in fields["required"].items && item.Str? && Rename(item.s) == name
      {
        KeepRequiredIs(fields["required"].items, RenamedKeys(props.Keys), name);
      }
    }
  }

  /** A tool with at most 15 properties keeps every property under its emitted name, and every demand on one. */
  lemma SmallToolKeepsEverything(p: Fields, r: Fields)
    requires IsParametersOutcome(Some(p), r)
    requires HasObject(p, "properties") && |p["properties"].fields| <= MAX_PROPERTIES
    ensures Props(Obj(r)).Keys == RenamedKeys(p["properties"].fields.Keys)
    ensures DemandsTheSame(p, p["properties"].fields, r)
  {
    var props, out := p["properties"].fields, r["properties"].fields;
    ParametersWithFields(p, Some(out));
    RequiredEntryDemands(p, props);
  }

  /** The same for a nested object. */
  lemma SmallObjectKeepsEverything(fields: Fields, depth: nat, r: Json)
    requires depth <= MAX_NESTING_DEPTH && IsObjectOutcome(fields, depth, r)
    requires HasObject(fields, "properties") && |fields["properties"].fields| <= MAX_PROPERTIES
    ensures r.Obj? && Props(r).Keys == RenamedKeys(fields["properties"].fields.Keys)
    ensures DemandsTheSame(fields, fields["properties"].fields, r.fields)
  {
    var props, out := fields["properties"].fields, r.fields["properties"].fields;
    ObjectSchemaFields(fields, out);
    RequiredEntryDemands(fields, props);
    assert HasArray(fields, "required") ==> r.fields["required"] == RequiredEntry(fields, out.Keys)["required"];
  }

  lemma LeastFive(props: Fields)
    requires |props| > MAX_PROPERTIES
    ensures |Preserved(props)| == 5 && Increasing(Preserved(props))
    ensures forall key | key in props && key !in Preserved(props) :: Before(Preserved(props)[4], key)
  {
    var sorted := SortedKeys(props.Keys);
    SortedKeysAreSorted(props.Keys);
    assert |props| == |props.Keys|;
    forall k | 0 <= k < 5 ensures sorted[k] in Preserved(props) {
      assert Preserved(props)[k] == sorted[k];
    }
    forall key | key in props && key !in Preserved(props) ensures Before(sorted[4], key) {
      assert key in sorted;
      var i :| 0 <= i < |sorted| && sorted[i] == key;
    }
  }

  lemma {:induction false} PlacedKeys(base: Fields, keys: seq<string>, values: seq<Json>)
    requires |keys| == |values|
    ensures Placed(base, keys, values).Keys == base.Keys + RenamedKeys(Elements(keys))
  {
    if keys != [] {
      var last := |keys| - 1;
      PlacedKeys(base, keys[..last], values[..last]);
      assert keys == keys[..last] + [keys[last]];
      assert Elements(keys) == Elements(keys[..last]) + {keys[last]};
      RenamedKeysAdd(Elements(keys[..last]), keys[last]);
    }
  }

  /** A larger tool keeps `data` and its first five properties in dictionary order, whatever the map order. */
  lemma LargeToolKeepsFive(props: Fields, out: Fields)
    requires |props| > MAX_PROPERTIES && IsTopOutcome(props, out)
    ensures |Preserved(props)| == 5 && Increasing(Preserved(props))
    ensures forall key | key in props && key !in Preserved(props) :: Before(Preserved(props)[4], key)
    ensures out.Keys == {"data"} + RenamedKeys(Elements(Preserved(props)))
  {
    var values :| AreOutcomes(props, Preserved(props), values) && out == Simplified(props, values);
    PlacedKeys(map["data" := DataProperty(|props|)], Preserved(props), values);
    LeastFive(props);
  }
}
