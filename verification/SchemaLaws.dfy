/**
 What becomes of a schema, case by case and for every map order: which keywords a rewritten property
 carries and with which values, and what a tool's parameters keep.
 */
module SchemaLaws {
  import opened SchemaNames
  import opened ToolSchema
  import opened Wrappers

  // ----- names and their order -----

  /** The permitted characters by their codes: letters, digits, the underscore, the full stop and the hyphen. */
  lemma PermittedCharacters(c: char)
    ensures var code := c as int;
            NameChar(c) <==> 97 <= code <= 122 || 65 <= code <= 90 || 48 <= code <= 57 || code == 95 || code == 46 || code == 45
  {}

  /** The first place where two strings differ decides their order, and a string comes before its continuations. */
  lemma {:induction false} FirstDifferenceDecides(a: string, b: string, k: nat)
    requires k <= |a| && k <= |b| && a[..k] == b[..k]
    requires k < |a| && k < |b| ==> a[k] != b[k]
    ensures Before(a, b) <==> k < |b| && (k == |a| || a[k] < b[k])
  {
    if k > 0 {
      assert a[0] == a[..k][0] && b[0] == b[..k][0];
      assert a[1..][..k - 1] == a[..k][1..] && b[1..][..k - 1] == b[..k][1..];
      FirstDifferenceDecides(a[1..], b[1..], k - 1);
    }
  }

  /** The permitted characters of a name are kept one by one, in order. */
  lemma {:induction false} KeptOneByOne(a: string, b: string)
    ensures Kept(a + b) == Kept(a) + Kept(b)
  {
    if |b| == 0 {
      assert a + b == a;
    } else {
      var last := |b| - 1;
      assert (a + b)[..|a + b| - 1] == a + b[..last];
      KeptOneByOne(a, b[..last]);
    }
  }

  lemma KeptOne(c: char)
    ensures Kept([c]) == if NameChar(c) then [c] else ""
  {
    assert |[c][..0]| == 0;
  }

  /** A name that is not valid is emitted as the first 64 of them, or as param if there are none. */
  lemma EmittedAs(name: string)
    requires !ValidName(name)
    ensures var kept := Kept(name);
            Rename(name) == if |kept| == 0 then "param" else if |kept| > 64 then kept[..64] else kept
  {}

  // ----- counts -----

  /** The number that a string of digits spells. */
  function Spelled(digits: string): int {
    if |digits| == 0 then 0 else 10 * Spelled(digits[..|digits| - 1]) + (digits[|digits| - 1] as int - '0' as int)
  }

  lemma DigitSpells(d: nat)
    requires d < 10
    ensures Digit(d) as int - '0' as int == d
  {}

  /** The counts in descriptions are spelled in decimal. */
  lemma {:induction false} DecimalSpells(n: nat)
    ensures Spelled(Decimal(n)) == n && |Decimal(n)| > 0
  {
    DigitSpells(n % 10);
    var last := [Digit(n % 10)];
    if n < 10 {
      assert |last[..0]| == 0 && Spelled(last[..0]) == 0;
    } else {
      DecimalSpells(n / 10);
      assert (Decimal(n / 10) + last)[..|Decimal(n / 10)|] == Decimal(n / 10);
    }
  }

  // ----- properties -----

  predicate NoUnion(fields: Fields) {
    "anyOf" !in fields && "oneOf" !in fields && "allOf" !in fields
  }

  /** Without a schema object there is nothing to keep: any string is asked for. */
  lemma NoSchemaAsksForString(schema: Json, depth: nat, r: Json)
    requires IsOutcome(schema, depth, r) && !schema.Obj?
    ensures r == Obj(map["type" := Str("string")])
  {}

  /** More than five objects deep, and for an object with no properties or with more than fifteen, a described string. */
  lemma ObjectAsksForString(schema: Json, depth: nat, r: Json)
    requires IsOutcome(schema, depth, r) && schema.Obj? && NoUnion(schema.fields)
    requires "type" in schema.fields && schema.fields["type"] == Str("object")
    requires depth <= 5 ==> HasObject(schema.fields, "properties") ==> |schema.fields["properties"].fields| > 15
    ensures r.Obj? && r.fields.Keys == {"type", "description"}
    ensures r.fields["type"] == Str("string") && r.fields["description"].Str?
  {}

  lemma DeepAsksForString(schema: Json, depth: nat, r: Json)
    requires IsOutcome(schema, depth, r) && schema.Obj? && depth > 5
    ensures r.Obj? && r.fields.Keys == {"type", "description"} && r.fields["type"] == Str("string")
  {}

  /** An object with at most fifteen properties stays an object, closed. */
  lemma ObjectStaysObject(schema: Json, depth: nat, r: Json)
    requires IsOutcome(schema, depth, r) && schema.Obj? && depth <= 5 && NoUnion(schema.fields)
    requires "type" in schema.fields && schema.fields["type"] == Str("object")
    requires HasObject(schema.fields, "properties") && |schema.fields["properties"].fields| <= 15
    ensures r.Obj? && HasObject(r.fields, "properties") && {"type", "additionalProperties"} <= r.fields.Keys
    ensures r.fields["type"] == Str("object") && r.fields["additionalProperties"] == Bool(false)
    ensures r.fields.Keys <= {"type", "properties", "additionalProperties", "required"}
    ensures "required" in r.fields <==> HasArray(schema.fields, "required")
  {
    var out := r.fields["properties"].fields;
    assert r.fields == ClosedFields(out) + RequiredEntry(schema.fields, out.Keys);
  }

  /** A union becomes a string that keeps its description. */
  lemma UnionBecomesString(schema: Json, depth: nat, r: Json)
    requires IsOutcome(schema, depth, r) && schema.Obj? && depth <= 5
    requires "anyOf" in schema.fields || "oneOf" in schema.fields || "allOf" in schema.fields
    ensures r.Obj? && r.fields.Keys == {"type", "description"} && r.fields["type"] == Str("string")
    ensures if "description" in schema.fields then r.fields["description"] == schema.fields["description"]
            else r.fields["description"].Str?
  {}

  /** An array becomes an array of its items' own type, of strings if they have none. */
  lemma ArrayKeepsItemType(schema: Json, depth: nat, r: Json)
    requires IsOutcome(schema, depth, r) && schema.Obj? && depth <= 5 && NoUnion(schema.fields)
    requires "type" in schema.fields && schema.fields["type"] == Str("array")
    ensures r.Obj? && r.fields.Keys == {"type", "items"} && r.fields["type"] == Str("array")
    ensures r.fields["items"].Obj? && r.fields["items"].fields.Keys == {"type"}
    ensures r.fields["items"].fields["type"] ==
            if HasObject(schema.fields, "items") && "type" in schema.fields["items"].fields
            then schema.fields["items"].fields["type"] else Str("string")
  {}

  lemma SimpleKey(key: string)
    ensures key in SIMPLE_KEYS <==>
            key in {"description", "enum", "pattern", "minimum", "maximum", "minLength", "maxLength", "minItems", "maxItems"}
  {
    assert SIMPLE_KEYS == ["description", "enum", "pattern", "minimum", "maximum"]
                          + ["minLength", "maxLength", "minItems", "maxItems"];
  }

  lemma SimpleOutcome(schema: Json, depth: nat, r: Json)
    requires IsOutcome(schema, depth, r) && schema.Obj? && depth <= 5 && NoUnion(schema.fields)
    requires "type" in schema.fields ==> schema.fields["type"] != Str("object") && schema.fields["type"] != Str("array")
    ensures r == SimpleSchema(schema.fields)
  {
    assert Str("object").s != Str("string").s && Str("array").s != Str("string").s;
  }

  lemma SimpleFieldAt(fields: Fields, key: string)
    ensures key in SimpleFields(fields) <==>
            key in fields && (key in SIMPLE_KEYS || (key == "format" && SupportedFormat(fields[key])))
    ensures key in SimpleFields(fields) ==> SimpleFields(fields)[key] == fields[key]
  {}

  /** Any other property keeps its own type, a string if it has none. */
  lemma SimpleKeepsType(schema: Json, depth: nat, r: Json)
    requires IsOutcome(schema, depth, r) && schema.Obj? && depth <= 5 && NoUnion(schema.fields)
    requires "type" in schema.fields ==> schema.fields["type"] != Str("object") && schema.fields["type"] != Str("array")
    ensures r.Obj? && "type" in r.fields
    ensures r.fields["type"] == if "type" in schema.fields then schema.fields["type"] else Str("string")
  {
    SimpleOutcome(schema, depth, r);
  }

  lemma FormatNames(value: Json)
    ensures SupportedFormat(value) <==> value in {Str("email"), Str("uri"), Str("date"), Str("date-time")}
  {
    assert SUPPORTED_FORMATS == ["email", "uri"] + ["date", "date-time"];
  }

  /** And of the other keywords exactly the supported ones, each with its own value. */
  lemma SimpleKeepsKeywords(schema: Json, depth: nat, r: Json, key: string)
    requires IsOutcome(schema, depth, r) && schema.Obj? && depth <= 5 && NoUnion(schema.fields)
    requires "type" in schema.fields ==> schema.fields["type"] != Str("object") && schema.fields["type"] != Str("array")
    requires key != "type"
    ensures r.Obj?
    ensures key in r.fields <==>
            && key in schema.fields
            && if key == "format" then schema.fields[key] in {Str("email"), Str("uri"), Str("date"), Str("date-time")}
               else key in {"description", "enum", "pattern", "minimum", "maximum", "minLength", "maxLength",
                            "minItems", "maxItems"}
    ensures key in r.fields ==> r.fields[key] == schema.fields[key]
  {
    SimpleOutcome(schema, depth, r);
    SimpleFieldAt(schema.fields, key);
    SimpleKey(key);
    if key in schema.fields {
      FormatNames(schema.fields[key]);
    }
  }

  // ----- the properties of an object or a tool -----

  /** Where no two keys are emitted under one name, every property is rewritten under its own. */
  lemma EachIsRewritten(props: Fields, depth: nat, out: Fields, key: string)
    requires IsPropertiesOutcome(props, depth, out) && key in props
    requires forall other | other in props && Rename(other) == Rename(key) :: other == key
    ensures Rename(key) in out && IsOutcome(props[key], depth, out[Rename(key)])
  {
    assert Rename(key) in RenamedKeys(props.Keys);
    assert ComesFrom(props, depth, Rename(key), out[Rename(key)]);
  }

  lemma {:induction false} LastPlaced(base: Fields, keys: seq<string>, values: seq<Json>, i: nat)
    requires |keys| == |values| && i < |keys|
    requires forall j :: i < j < |keys| ==> Rename(keys[j]) != Rename(keys[i])
    ensures Rename(keys[i]) in Placed(base, keys, values) && Placed(base, keys, values)[Rename(keys[i])] == values[i]
  {
    var last := |keys| - 1;
    if i < last {
      LastPlaced(base, keys[..last], values[..last], i);
    }
  }

  /** Of the five properties a large tool keeps, each is rewritten under its own name unless a later one took it. */
  lemma FiveAreRewritten(props: Fields, out: Fields, i: nat)
    requires |props| > 15 && IsTopOutcome(props, out) && i < |Preserved(props)|
    requires forall j :: i < j < |Preserved(props)| ==> Rename(Preserved(props)[j]) != Rename(Preserved(props)[i])
    ensures Preserved(props)[i] in props && Rename(Preserved(props)[i]) in out
    ensures IsOutcome(props[Preserved(props)[i]], 0, out[Rename(Preserved(props)[i])])
  {
    var values :| AreOutcomes(props, Preserved(props), values) && out == Simplified(props, values);
    LastPlaced(map["data" := DataProperty(|props|)], Preserved(props), values, i);
  }

  /** Required names are kept one by one, in order: those emitted under the name of an emitted property. */
  lemma {:induction false} RequiredOneByOne(a: seq<Json>, b: seq<Json>, names: set<string>)
    ensures KeepRequired(a + b, names) == KeepRequired(a, names) + KeepRequired(b, names)
  {
    if |b| == 0 {
      assert a + b == a;
    } else {
      var last := |b| - 1;
      RequiredOneByOne(a, b[..last], names);
      assert (a + b)[..|a + b| - 1] == a + b[..last];
    }
  }

  lemma RequiredOne(item: Json, names: set<string>)
    ensures KeepRequired([item], names) ==
            if item.Str? && Rename(item.s) in names then [Str(Rename(item.s))] else []
  {
    assert |[item][..0]| == 0;
  }

  // ----- a tool's parameters -----

  lemma EntriesOf(params: Fields, out: Option<Fields>)
    ensures var r := ParametersWith(params, out);
      && ("type" in r <==> "type" in params) && ("type" in r ==> r["type"] == params["type"])
      && "additionalProperties" in r && r["additionalProperties"] == Bool(false)
      && ("properties" in r <==> out.Some?) && ("required" in r <==> HasArray(params, "required"))
      && r.Keys <= {"type", "properties", "required", "additionalProperties"}
  {}

  /** Parameters keep their own type, have properties and required names exactly if they came with them, and are
      closed. */
  lemma ParametersKeepType(params: Fields, r: Fields)
    requires IsParametersOutcome(Some(params), r)
    ensures ("type" in r <==> "type" in params) && ("type" in r ==> r["type"] == params["type"])
    ensures "additionalProperties" in r && r["additionalProperties"] == Bool(false)
    ensures "properties" in r <==> HasObject(params, "properties")
    ensures "required" in r <==> HasArray(params, "required")
    ensures r.Keys <= {"type", "properties", "required", "additionalProperties"}
  {
    if HasObject(params, "properties") {
      EntriesOf(params, Some(r["properties"].fields));
    } else {
      EntriesOf(params, None);
    }
  }

  /** Absent parameters become those of a tool without any. */
  lemma AbsentParameters(r: Fields)
    requires IsParametersOutcome(None, r)
    ensures r.Keys == {"type", "properties", "additionalProperties"}
    ensures r["type"] == Str("object") && r["properties"] == Obj(map[]) && r["additionalProperties"] == Bool(false)
  {}
}
