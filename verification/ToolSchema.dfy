/** Rewriting a tool's JSON-Schema parameters into the subset the upstream service accepts.

    Go iterates over maps in an unspecified order, so the result of a rewrite is specified by relations
    (`IsOutcome` and its companions) that hold of every result some order produces. Schemas are JSON
    values as they read back after marshalling: an empty Go slice of required names is `null`. */
module ToolSchema {
  import Collections
  import opened Wrappers
  import opened SchemaNames

  type Fields = map<string, Json>

  datatype Json =
    | Null
    | Bool(b: bool)
    | Num(n: real)
    | Str(s: string)
    | Arr(items: seq<Json>)
    | Obj(fields: Fields)

  const MAX_PROPERTIES := 15
  const MAX_NESTING_DEPTH := 5
  const MAX_PRESERVED := 5

  function Digit(d: nat): char
    requires d < 10
  {
    ['0', '1', '2', '3', '4', '5', '6', '7', '8', '9'][d]
  }

  function Decimal(n: nat): string {
    if n < 10 then [Digit(n)] else Decimal(n / 10) + [Digit(n % 10)]
  }

  // ----- the parts of a schema that do not recurse -----

  function StringSchema(description: string): Json {
    Obj(map["type" := Str("string"), "description" := Str(description)])
  }

  const BARE_STRING := Obj(map["type" := Str("string")])
  const DEEP_OBJECT := StringSchema("Deeply nested object - provide as JSON string")

  /** The union keyword that decides, in the order the source tries them. */
  function UnionOf(fields: Fields): Option<string> {
    if "anyOf" in fields then Some("anyOf")
    else if "oneOf" in fields then Some("oneOf")
    else if "allOf" in fields then Some("allOf")
    else None
  }

  function SimplifiedUnion(fields: Fields, union: string): Json {
    Obj(map["type" := Str("string"),
            "description" := if "description" in fields then fields["description"]
                             else Str("Complex type (" + union + ") simplified to string")])
  }

  function TypeOf(fields: Fields): Json {
    if "type" in fields then fields["type"] else Str("string")
  }

  function ItemType(fields: Fields): Json {
    if "items" in fields && fields["items"].Obj? then TypeOf(fields["items"].fields) else Str("string")
  }

  function ArraySchema(fields: Fields): Json {
    Obj(map["type" := Str("array"), "items" := Obj(map["type" := ItemType(fields)])])
  }

  const SIMPLE_KEYS: seq<string> :=
    ["description", "enum", "pattern", "minimum", "maximum", "minLength", "maxLength", "minItems", "maxItems"]

  const SUPPORTED_FORMATS: seq<string> := ["email", "uri", "date", "date-time"]

  predicate SupportedFormat(value: Json) {
    value.Str? && value.s in SUPPORTED_FORMATS
  }

  function SimpleFields(fields: Fields): Fields {
    map key | key in fields && (key in SIMPLE_KEYS || (key == "format" && SupportedFormat(fields[key])))
      :: fields[key]
  }

  function SimpleSchema(fields: Fields): Json {
    Obj(SimpleFields(fields)["type" := TypeOf(fields)])
  }

  // ----- objects -----

  predicate HasObject(fields: Fields, key: string) {
    key in fields && fields[key].Obj?
  }

  predicate HasArray(fields: Fields, key: string) {
    key in fields && fields[key].Arr?
  }

  /** Those required names, as emitted, that name an emitted property. */
  function KeepRequired(items: seq<Json>, names: set<string>): (r: seq<Json>)
    ensures forall i :: 0 <= i < |r| ==> r[i].Str? && r[i].s in names
  {
    if |items| == 0 then []
    else
      var last := items[|items| - 1];
      KeepRequired(items[..|items| - 1], names)
      + if last.Str? && Rename(last.s) in names then [Str(Rename(last.s))] else []
  }

  function RequiredEntry(fields: Fields, names: set<string>): Fields {
    if !HasArray(fields, "required") then map[]
    else
      var kept := KeepRequired(fields["required"].items, names);
      map["required" := if kept == [] then Null else Arr(kept)]
  }

  /** An object with properties `props`, all optional, and no others allowed. */
  function ClosedFields(props: Fields): Fields {
    map["type" := Str("object"), "properties" := Obj(props), "additionalProperties" := Bool(false)]
  }

  function ObjectSchema(fields: Fields, out: Fields): Json {
    Obj(ClosedFields(out) + RequiredEntry(fields, out.Keys))
  }

  function TooManyProperties(count: nat): Json {
    StringSchema("Complex object with " + Decimal(count) + " properties - provide as JSON string")
  }

  const NO_PROPERTIES := StringSchema("Object without properties - provide as JSON string")

  lemma ObjectSchemaHolds(fields: Fields, out: Fields)
    ensures HasObject(ObjectSchema(fields, out).fields, "properties")
    ensures ObjectSchema(fields, out).fields["properties"] == Obj(out)
  {}

  /** `r` is a rewrite of the property schema `schema` found at nesting depth `depth`. */
  ghost predicate IsOutcome(schema: Json, depth: nat, r: Json)
    decreases 6 - depth, 1, 0
  {
    if !schema.Obj? then r == BARE_STRING
    else if depth > MAX_NESTING_DEPTH then r == DEEP_OBJECT
    else
      match UnionOf(schema.fields)
      case Some(union) => r == SimplifiedUnion(schema.fields, union)
      case None =>
        var t := TypeOf(schema.fields);
        if t == Str("object") then IsObjectOutcome(schema.fields, depth, r)
        else if t == Str("array") then r == ArraySchema(schema.fields)
        else r == SimpleSchema(schema.fields)
  }

  /** `value` is what some property of `props` emitted as `name` becomes. */
  ghost predicate ComesFrom(props: Fields, depth: nat, name: string, value: Json)
    decreases 6 - depth, 1
  {
    exists key :: key in props && Rename(key) == name && IsOutcome(props[key], depth, value)
  }

  /** Every name is a renamed key, and when several keys rename to it any one of them may have won. */
  ghost predicate IsPropertiesOutcome(props: Fields, depth: nat, out: Fields)
    decreases 6 - depth, 2
  {
    && out.Keys == RenamedKeys(props.Keys)
    && forall name | name in out :: ComesFrom(props, depth, name, out[name])
  }

  ghost predicate IsObjectOutcome(fields: Fields, depth: nat, r: Json)
    requires depth <= MAX_NESTING_DEPTH
    decreases 6 - depth, 0
  {
    if !HasObject(fields, "properties") then r == NO_PROPERTIES
    else
      var props := fields["properties"].fields;
      if |props| > MAX_PROPERTIES then r == TooManyProperties(|props|)
      else
        && r.Obj?
        && HasObject(r.fields, "properties")
        && IsPropertiesOutcome(props, depth + 1, r.fields["properties"].fields)
        && r == ObjectSchema(fields, r.fields["properties"].fields)
  }

  // ----- the top level -----

  function DataProperty(count: nat): Json {
    StringSchema("Provide all " + Decimal(count) + " required fields as a single JSON string")
  }

  ghost function Preserved(props: Fields): seq<string> {
    var sorted := SortedKeys(props.Keys);
    if |sorted| <= MAX_PRESERVED then sorted else sorted[..MAX_PRESERVED]
  }

  /** Entering `values[i]` under the emitted name of `keys[i]`, in order; a later entry replaces an earlier one. */
  function Placed(base: Fields, keys: seq<string>, values: seq<Json>): Fields
    requires |keys| == |values|
  {
    if |keys| == 0 then base
    else
      var last := |keys| - 1;
      Placed(base, keys[..last], values[..last])[Rename(keys[last]) := values[last]]
  }

  /** `values` are rewrites of the properties `keys`. */
  ghost predicate AreOutcomes(props: Fields, keys: seq<string>, values: seq<Json>) {
    && |keys| == |values|
    && forall i :: 0 <= i < |keys| ==> keys[i] in props && IsOutcome(props[keys[i]], 0, values[i])
  }

  ghost function Simplified(props: Fields, values: seq<Json>): Fields
    requires |values| == |Preserved(props)|
  {
    Placed(map["data" := DataProperty(|props|)], Preserved(props), values)
  }

  /** One property `data` stands for all of them, and the first few keys are kept beside it. */
  ghost predicate IsSimplifiedOutcome(props: Fields, out: Fields) {
    exists values :: AreOutcomes(props, Preserved(props), values) && out == Simplified(props, values)
  }

  const DEFAULT_PARAMETERS: Fields :=
    map["type" := Str("object"), "properties" := Obj(map[]), "additionalProperties" := Bool(false)]

  function TypeEntry(params: Fields): Fields {
    if "type" in params then map["type" := params["type"]] else map[]
  }

  function PropertiesEntry(out: Option<Fields>): Fields {
    if out.Some? then map["properties" := Obj(out.value)] else map[]
  }

  function NamesOf(out: Option<Fields>): set<string> {
    if out.Some? then out.value.Keys else {}
  }

  /** The entries of the rewritten parameters; `out` are the rewritten properties, if any. */
  function ParametersWith(params: Fields, out: Option<Fields>): Fields {
    (TypeEntry(params) + PropertiesEntry(out) + RequiredEntry(params, NamesOf(out)))["additionalProperties" := Bool(false)]
  }

  ghost predicate IsTopOutcome(props: Fields, out: Fields) {
    if |props| > MAX_PROPERTIES then IsSimplifiedOutcome(props, out) else IsPropertiesOutcome(props, 0, out)
  }

  /** `r` is a rewrite of a tool's parameters, `None` standing for absent (or `null`) ones. */
  ghost predicate IsParametersOutcome(params: Option<Fields>, r: Fields) {
    match params
    case None => r == DEFAULT_PARAMETERS
    case Some(p) =>
      if HasObject(p, "properties") then
        && HasObject(r, "properties")
        && IsTopOutcome(p["properties"].fields, r["properties"].fields)
        && r == ParametersWith(p, Some(r["properties"].fields))
      else
        r == ParametersWith(p, None)
  }

  // ----- the rewriting code -----

  method SimplifyUnionType(fields: Fields, union: string) returns (r: Fields)
    ensures Obj(r) == SimplifiedUnion(fields, union)
  {
    r := map["type" := Str("string")];
    if "description" in fields {
      r := r["description" := fields["description"]];
    } else {
      r := r["description" := Str("Complex type (" + union + ") simplified to string")];
    }
  }

  method TransformArray(fields: Fields) returns (r: Fields)
    ensures Obj(r) == ArraySchema(fields)
  {
    r := map["type" := Str("array")];
    if HasObject(fields, "items") {
      var items := fields["items"].fields;
      if "type" in items {
        r := r["items" := Obj(map["type" := items["type"]])];
      } else {
        r := r["items" := BARE_STRING];
      }
    } else {
      r := r["items" := BARE_STRING];
    }
  }

  /** The entries of `fields` under one of `keys`. */
  function Only(fields: Fields, keys: seq<string>): Fields {
    map key | key in fields && key in keys :: fields[key]
  }

  method CopyKeys(fields: Fields, result: Fields, keys: seq<string>) returns (r: Fields)
    ensures r == result + Only(fields, keys)
  {
    r := result;
    var i := 0;
    while i < |keys|
      invariant 0 <= i <= |keys|
      invariant r == result + Only(fields, keys[..i])
    {
      var key := keys[i];
      assert keys[..i + 1] == keys[..i] + [key];
      if key in fields {
        r := r[key := fields[key]];
      }
      i := i + 1;
    }
    assert keys[..i] == keys;
  }

  function FormatEntry(fields: Fields): Fields {
    if "format" in fields && SupportedFormat(fields["format"]) then map["format" := fields["format"]] else map[]
  }

  lemma SimpleFieldsParts(fields: Fields)
    ensures SimpleFields(fields) == Only(fields, SIMPLE_KEYS) + FormatEntry(fields)
  {
  }

  lemma EnumIsSimple()
    ensures "enum" in SIMPLE_KEYS
  {
    assert SIMPLE_KEYS[1] == "enum";
  }

  method CopySimpleProperties(fields: Fields, result: Fields) returns (r: Fields)
    ensures r == result + SimpleFields(fields)
  {
    r := CopyKeys(fields, result, SIMPLE_KEYS);
    SimpleFieldsParts(fields);
    Collections.AddedInTurn(result, Only(fields, SIMPLE_KEYS), FormatEntry(fields));
    if "format" in fields && SupportedFormat(fields["format"]) {
      r := r["format" := fields["format"]];
    }
    EnumIsSimple();
    if "enum" in fields {
      assert "enum" in SimpleFields(fields);
      r := r["enum" := fields["enum"]];
    }
  }

  method ValidateRequiredFields(required: seq<Json>, names: set<string>) returns (kept: seq<Json>)
    ensures kept == KeepRequired(required, names)
  {
    kept := [];
    var i := 0;
    while i < |required|
      invariant 0 <= i <= |required|
      invariant kept == KeepRequired(required[..i], names)
    {
      assert required[..i + 1][..i] == required[..i];
      if required[i].Str? {
        var validName := EmittedName(required[i].s);
        if ValidName(validName) && validName in names {
          kept := kept + [Str(validName)];
        }
      }
      i := i + 1;
    }
    assert required[..i] == required;
  }
}
