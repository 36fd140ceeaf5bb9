/** Rewriting a rewritten schema.

    One pass does not always reach a fixed point. At nesting depth 6 an object becomes a fixed text, but a
    property schema that is not an object (say `true`) becomes `{"type": "string"}`, which is itself an object
    and becomes that text in the next pass. This module says exactly when that happens, and that two passes
    always suffice. */
module SchemaFixpoint {
  import opened Wrappers
  import opened SchemaNames
  import opened ToolSchema
  import opened SchemaSoundness

  /** The entry `required` unless it is an empty list, which reads back as `null`. */
  function NonEmptyRequired(fields: Fields): Fields {
    if "required" in fields && fields["required"] != Null then map["required" := fields["required"]] else map[]
  }

  /** A closed object with properties `props` and the required names of `fields`. */
  function ClosedWith(props: Fields, fields: Fields): Json {
    Obj(ClosedFields(props) + NonEmptyRequired(fields))
  }

  lemma ClosedWithProps(props: Fields, fields: Fields)
    ensures Props(ClosedWith(props, fields)) == props
  {}

  lemma ClosedWithRequired(props: Fields, fields: Fields)
    ensures NonEmptyRequired(ClosedWith(props, fields).fields) == NonEmptyRequired(fields)
    ensures TypeOf(ClosedWith(props, fields).fields) == Str("object")
  {}

  lemma ClosedWithIsInjective(a: Fields, b: Fields, fields: Fields)
    ensures ClosedWith(a, fields) == ClosedWith(b, fields) <==> a == b
  {
    ClosedWithProps(a, fields);
    ClosedWithProps(b, fields);
  }

  ghost function SettledProps(r: Json, depth: nat): Fields
    decreases 6 - depth, 1
  {
    map name | name in Props(r) :: Settled(Props(r)[name], depth)
  }

  /** What a further pass makes of a schema in normal form. */
  ghost function Settled(r: Json, depth: nat): Json
    decreases 6 - depth, 0
  {
    if depth > MAX_NESTING_DEPTH then DEEP_OBJECT
    else if r.Obj? && IsClosedObject(r.fields) then
      ClosedWith(SettledProps(r, depth + 1), r.fields)
    else r
  }

  lemma ValidNamesStay(props: Fields)
    requires ValidNames(props)
    ensures RenamedKeys(props.Keys) == props.Keys
  {
    forall name | name in props ensures Rename(name) == name {
      RenameIsSound(name);
    }
    forall name | name in props ensures name in RenamedKeys(props.Keys) {
      assert Rename(name) == name;
    }
  }

  lemma {:induction false} EmittedRequiredStays(items: seq<Json>, names: set<string>)
    requires forall name | name in names :: ValidName(name)
    requires forall item | item in items :: item.Str? && item.s in names
    ensures KeepRequired(items, names) == items
  {
    if items != [] {
      var last := |items| - 1;
      EmittedRequiredStays(items[..last], names);
      assert items[last] in items;
      RenameIsSound(items[last].s);
      assert items == items[..last] + [items[last]];
    }
  }

  lemma RequiredEntryStays(fields: Fields, names: set<string>)
    requires RequiredIsEmitted(fields, names) && forall name | name in names :: ValidName(name)
    ensures RequiredEntry(fields, names) == NonEmptyRequired(fields)
  {
    if "required" in fields && fields["required"].Arr? {
      EmittedRequiredStays(fields["required"].items, names);
    }
  }

  lemma FlatStays(r: Json, depth: nat, r2: Json)
    requires depth <= MAX_NESTING_DEPTH && r.Obj? && IsFlat(r.fields)
    ensures IsOutcome(r, depth, r2) <==> r2 == r
  {}

  lemma OnlyItself(props: Fields, depth: nat, name: string, value: Json)
    requires ValidNames(props) && name in props
    ensures ComesFrom(props, depth, name, value) <==> IsOutcome(props[name], depth, value)
  {
    forall key | key in props ensures Rename(key) == key {
      RenameIsSound(key);
    }
  }

  lemma {:induction false} SecondPassOnProperties(r: Json, depth: nat, out: Fields)
    requires ValidNames(Props(r)) && forall name | name in Props(r) :: Canonical(Props(r)[name], depth)
    ensures IsPropertiesOutcome(Props(r), depth, out) <==> out == SettledProps(r, depth)
    decreases 6 - depth, 1
  {
    var props := Props(r);
    ValidNamesStay(props);
    forall name | name in props && name in out
      ensures ComesFrom(props, depth, name, out[name]) <==> out[name] == Settled(props[name], depth)
    {
      SecondPass(props[name], depth, out[name]);
      OnlyItself(props, depth, name, out[name]);
    }
  }

  lemma {:induction false} SecondPassOnObject(r: Json, depth: nat, r2: Json)
    requires Canonical(r, depth) && depth <= MAX_NESTING_DEPTH && IsClosedObject(r.fields)
    ensures IsObjectOutcome(r.fields, depth, r2) <==> r2 == Settled(r, depth)
    decreases 6 - depth, 0, 0
  {
    var settled := SettledProps(r, depth + 1);
    ObjectSchemaFields(r.fields, settled);
    RequiredEntryStays(r.fields, settled.Keys);
    if r2.Obj? && HasObject(r2.fields, "properties") {
      SecondPassOnProperties(r, depth + 1, r2.fields["properties"].fields);
    }
  }

  /** A further pass over a schema in normal form has exactly one result. */
  lemma {:induction false} SecondPass(r: Json, depth: nat, r2: Json)
    requires Canonical(r, depth)
    ensures IsOutcome(r, depth, r2) <==> r2 == Settled(r, depth)
    decreases 6 - depth, 0, 1
  {
    if depth <= MAX_NESTING_DEPTH {
      if IsClosedObject(r.fields) {
        ClosedObjectKeys(r.fields);
        SecondPassOnObject(r, depth, r2);
      } else {
        FlatStays(r, depth, r2);
      }
    }
  }

  /** A simplified union is a string that says what the union's description said, and a further pass keeps it. */
  lemma SimplifiedUnionStays(fields: Fields, union: string, depth: nat, r2: Json)
    requires depth <= MAX_NESTING_DEPTH
    ensures var r := SimplifiedUnion(fields, union);
      && r.fields["type"] == Str("string") && r.fields.Keys == {"type", "description"}
      && ("description" in fields ==> r.fields["description"] == fields["description"])
      && (IsOutcome(r, depth, r2) <==> r2 == r)
  {
    SimplifiedUnionIsFlat(fields, union);
    FlatStays(SimplifiedUnion(fields, union), depth, r2);
  }

  /** A rewritten array says the type of its items and nothing else, and a further pass keeps it. */
  lemma ArraySchemaStays(fields: Fields, depth: nat, r2: Json)
    requires depth <= MAX_NESTING_DEPTH
    ensures var r := ArraySchema(fields);
      && r.fields.Keys == {"type", "items"} && r.fields["type"] == Str("array")
      && r.fields["items"] == Obj(map["type" := ItemType(fields)])
      && (IsOutcome(r, depth, r2) <==> r2 == r)
  {
    ArraySchemaIsFlat(fields);
    FlatStays(ArraySchema(fields), depth, r2);
  }

  // ----- when one pass is enough -----

  ghost function CleanProps(r: Json): Fields
    decreases r, 0
  {
    map name | name in Props(r) :: Clean(Props(r)[name])
  }

  /** `r` without its empty `required` lists, at every level; a closed object has no other entries than those of
      `ClosedFields` and `required`. */
  ghost function Clean(r: Json): Json
    decreases r, 1
  {
    if r.Obj? && IsClosedObject(r.fields) then ClosedWith(CleanProps(r), r.fields) else r
  }

  /** A schema `{"type": "string"}` sits at depth 6 under `r`. */
  ghost predicate HasBareLeaf(r: Json, depth: nat)
    decreases r
  {
    if depth > MAX_NESTING_DEPTH then r == BARE_STRING
    else exists name :: name in Props(r) && HasBareLeaf(Props(r)[name], depth + 1)
  }

  ghost predicate HasBareLeafBelow(r: Json, depth: nat) {
    exists name :: name in Props(r) && HasBareLeaf(Props(r)[name], depth)
  }

  lemma DeepIsNotBare()
    ensures DEEP_OBJECT != BARE_STRING
  {
    assert "description" in DEEP_OBJECT.fields && "description" !in BARE_STRING.fields;
  }

  lemma DeepestOnlyCleans(r: Json, depth: nat)
    requires depth > MAX_NESTING_DEPTH && Canonical(r, depth)
    ensures Settled(r, depth) == Clean(r) <==> !HasBareLeaf(r, depth)
  {
    DeepIsNotBare();
    BareStringIsFlat();
    FlatIsNotClosed(BARE_STRING.fields);
    StringSchemaIsFlat("Deeply nested object - provide as JSON string");
    FlatIsNotClosed(DEEP_OBJECT.fields);
  }

  lemma {:induction false} PropertiesOnlyClean(r: Json, depth: nat)
    requires forall name | name in Props(r) :: Canonical(Props(r)[name], depth)
    ensures SettledProps(r, depth) == CleanProps(r) <==> !HasBareLeafBelow(r, depth)
    decreases 6 - depth, 1
  {
    forall name | name in Props(r)
      ensures SettledProps(r, depth)[name] == CleanProps(r)[name] <==> !HasBareLeaf(Props(r)[name], depth)
    {
      SecondPassOnlyCleans(Props(r)[name], depth);
    }
  }

  /** A further pass changes nothing but empty `required` lists if and only if no bare string sits at depth 6. */
  lemma {:induction false} SecondPassOnlyCleans(r: Json, depth: nat)
    requires Canonical(r, depth)
    ensures Settled(r, depth) == Clean(r) <==> !HasBareLeaf(r, depth)
    decreases 6 - depth, 0
  {
    if depth > MAX_NESTING_DEPTH {
      DeepestOnlyCleans(r, depth);
    } else if IsClosedObject(r.fields) {
      PropertiesOnlyClean(r, depth + 1);
      ClosedWithIsInjective(SettledProps(r, depth + 1), CleanProps(r), r.fields);
    } else {
      LeafHasNoProps(r);
    }
  }

  // ----- two passes are enough -----

  lemma SettledIsCanonical(r: Json, depth: nat)
    requires Canonical(r, depth)
    ensures Canonical(Settled(r, depth), depth)
  {
    SecondPass(r, depth, Settled(r, depth));
    OutcomeIsCanonical(r, depth, Settled(r, depth));
  }

  ghost predicate Settles(r: Json, depth: nat) {
    Settled(Settled(r, depth), depth) == Settled(r, depth)
  }

  lemma ClosedIsFixed(props: Fields, fields: Fields, r: Json, depth: nat)
    requires depth <= MAX_NESTING_DEPTH && r == ClosedWith(props, fields) && IsClosedObject(r.fields)
    requires SettledProps(r, depth + 1) == props
    ensures Settled(r, depth) == r
  {
    ClosedWithRequired(props, fields);
  }

  lemma SettledIsClosed(r: Json, depth: nat)
    requires Canonical(r, depth) && depth <= MAX_NESTING_DEPTH && IsClosedObject(r.fields)
    ensures Settled(r, depth) == ClosedWith(SettledProps(r, depth + 1), r.fields)
    ensures IsClosedObject(Settled(r, depth).fields)
  {
    SettledIsCanonical(r, depth);
    ClosedWithRequired(SettledProps(r, depth + 1), r.fields);
  }

  lemma PropertiesSettle(r: Json, depth: nat, r2: Json)
    requires forall name | name in Props(r) :: Settles(Props(r)[name], depth)
    requires Props(r2) == SettledProps(r, depth)
    ensures SettledProps(r2, depth) == SettledProps(r, depth)
  {
    forall name | name in Props(r) ensures SettledProps(r2, depth)[name] == SettledProps(r, depth)[name] {
      assert Settles(Props(r)[name], depth);
    }
  }

  lemma ObjectSettles(r: Json, depth: nat)
    requires Canonical(r, depth) && depth <= MAX_NESTING_DEPTH && IsClosedObject(r.fields)
    requires forall name | name in Props(r) :: Settles(Props(r)[name], depth + 1)
    ensures Settles(r, depth)
  {
    SettledIsClosed(r, depth);
    ClosedWithProps(SettledProps(r, depth + 1), r.fields);
    PropertiesSettle(r, depth + 1, Settled(r, depth));
    ClosedIsFixed(SettledProps(r, depth + 1), r.fields, Settled(r, depth), depth);
  }

  lemma {:induction false} PropertiesSettleToo(r: Json, depth: nat)
    requires forall name | name in Props(r) :: Canonical(Props(r)[name], depth)
    ensures forall name | name in Props(r) :: Settles(Props(r)[name], depth)
    decreases 6 - depth, 1
  {
    forall name | name in Props(r) ensures Settles(Props(r)[name], depth) {
      TwoPassesSettle(Props(r)[name], depth);
    }
  }

  lemma {:induction false} ClosedSettles(r: Json, depth: nat)
    requires Canonical(r, depth) && depth <= MAX_NESTING_DEPTH && IsClosedObject(r.fields)
    ensures Settles(r, depth)
    decreases 6 - depth, 0, 0
  {
    PropertiesSettleToo(r, depth + 1);
    ObjectSettles(r, depth);
  }

  lemma {:induction false} TwoPassesSettle(r: Json, depth: nat)
    requires Canonical(r, depth)
    ensures Settles(r, depth)
    decreases 6 - depth, 0, 1
  {
    if depth <= MAX_NESTING_DEPTH && IsClosedObject(r.fields) {
      ClosedSettles(r, depth);
    }
  }

  // ----- the parameters of a tool -----

  /** `r` with properties `props` and without an empty `required` list. */
  function TopWith(r: Fields, props: Fields): Fields {
    (TypeEntry(r) + PropertiesEntry(if "properties" in r then Some(props) else None) + NonEmptyRequired(r))
      ["additionalProperties" := Bool(false)]
  }

  ghost function SettledParameters(r: Fields): Fields {
    TopWith(r, SettledProps(Obj(r), 0))
  }

  ghost function CleanParameters(r: Fields): Fields {
    TopWith(r, CleanProps(Obj(r)))
  }

  lemma TopWithIsInjective(r: Fields, a: Fields, b: Fields)
    requires "properties" in r
    ensures TopWith(r, a) == TopWith(r, b) <==> a == b
  {
    assert TopWith(r, a)["properties"] == Obj(a) && TopWith(r, b)["properties"] == Obj(b);
  }

  lemma TopWithProps(r: Fields, props: Fields)
    ensures Props(Obj(TopWith(r, props))) == if "properties" in r then props else map[]
    ensures "properties" in TopWith(r, props) <==> "properties" in r
    ensures NonEmptyRequired(TopWith(r, props)) == NonEmptyRequired(r)
    ensures TypeEntry(TopWith(r, props)) == TypeEntry(r)
  {}

  lemma AssembledFromItself(r: Fields, out: Fields)
    requires SoundParameters(r) && "properties" in r && out.Keys == Props(Obj(r)).Keys
    ensures ParametersWith(r, Some(out)) == TopWith(r, out)
  {
    RequiredEntryStays(r, out.Keys);
  }

  lemma SecondPassWithProperties(r: Fields, r2: Fields)
    requires SoundParameters(r) && "properties" in r
    ensures IsParametersOutcome(Some(r), r2) <==> r2 == SettledParameters(r)
  {
    var settled := SettledProps(Obj(r), 0);
    AssembledFromItself(r, settled);
    ParametersWithFields(r, Some(settled));
    if HasObject(r2, "properties") {
      SecondPassOnProperties(Obj(r), 0, r2["properties"].fields);
    }
  }

  /** A further pass over rewritten parameters has exactly one result. */
  lemma SecondPassOnParameters(r: Fields, r2: Fields)
    requires SoundParameters(r)
    ensures IsParametersOutcome(Some(r), r2) <==> r2 == SettledParameters(r)
  {
    if "properties" in r {
      SecondPassWithProperties(r, r2);
    } else {
      RequiredEntryStays(r, {});
    }
  }

  /** Rewriting rewritten parameters changes nothing but empty `required` lists, at any level, if and only if the
      first result has no bare string at depth 6; a caller can see that before the second call. */
  lemma RewritingAgain(params: Option<Fields>, r: Fields, r2: Fields)
    requires IsParametersOutcome(params, r) && IsParametersOutcome(Some(r), r2)
    ensures r2 == CleanParameters(r) <==> !HasBareLeafBelow(Obj(r), 0)
  {
    ParametersAreSound(params, r);
    SecondPassOnParameters(r, r2);
    PropertiesOnlyClean(Obj(r), 0);
    if "properties" in r {
      TopWithIsInjective(r, SettledProps(Obj(r), 0), CleanProps(Obj(r)));
    }
  }

  lemma SettledParametersAreFixed(r: Fields)
    requires SoundParameters(r)
    ensures SettledParameters(SettledParameters(r)) == SettledParameters(r)
  {
    var props := SettledProps(Obj(r), 0);
    TopWithProps(r, props);
    PropertiesSettleToo(Obj(r), 0);
    if "properties" in r {
      PropertiesSettle(Obj(r), 0, Obj(TopWith(r, props)));
    }
  }

  /** Two passes always reach a fixed point: every result of a third pass is the result of the second. */
  lemma TwoPassesAreEnough(params: Option<Fields>, r: Fields, r2: Fields, r3: Fields)
    requires IsParametersOutcome(params, r) && IsParametersOutcome(Some(r), r2)
    ensures IsParametersOutcome(Some(r2), r3) <==> r3 == r2
  {
    ParametersAreSound(params, r);
    SecondPassOnParameters(r, r2);
    SettledParametersAreFixed(r);
    ParametersAreSound(Some(r), r2);
    SecondPassOnParameters(r2, r3);
  }
}
