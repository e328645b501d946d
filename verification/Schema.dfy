/** The closed JSON Schema subset of the controlled workspace: its compiled form, the
    matcher over that form, and a direct keyword-by-keyword reading of a schema. */
module Schema {
  import opened Wrappers
  import opened Json
  import opened Patterns

  const MAXIMUM_SCHEMA_PROPERTIES_PER_OBJECT: nat := 128
  const MAXIMUM_SCHEMA_ENUM_ITEMS_PER_NODE: nat := 64
  const MAXIMUM_ARGUMENT_ARRAY_ITEMS_PER_ARRAY: nat := 1024

  datatype Common = Common(constant: Option<Value>, enumeration: Option<set<Value>>)

  datatype Node =
    | StringNode(common: Common, minimumLength: nat, maximumLength: nat, pattern: Option<CompiledPattern>)
    | NumberNode(common: Common, minimum: Option<real>, maximum: Option<real>)
    | BooleanNode(common: Common)
    | NullNode(common: Common)
    | ArrayNode(common: Common, items: Node, minimumItems: nat, maximumItems: nat, uniqueItems: bool)
    | ObjectNode(common: Common, properties: map<string, Node>, required: set<string>,
                 minimumProperties: nat, maximumProperties: nat)

  // ---------------------------------------------------------------------------
  // Matching
  // ---------------------------------------------------------------------------

  predicate MatchesCommon(common: Common, v: Value) {
    && (common.constant.Some? ==> v == common.constant.value)
    && (common.enumeration.Some? ==> v in common.enumeration.value)
  }

  predicate MatchesNode(node: Node, v: Value) {
    MatchesCommon(node.common, v) && MatchesShape(node, v)
  }

  /** The matcher with the node's own `const` and `enum` left aside. */
  predicate MatchesShape(node: Node, v: Value)
    decreases node, 0
  {
    match node
    case StringNode(_, minimumLength, maximumLength, pattern) =>
      v.Str? && minimumLength <= |v.s| <= maximumLength &&
      (pattern.Some? ==> MatchesPattern(pattern.value, v.s))
    case NumberNode(_, minimum, maximum) =>
      v.Num? && IsSafeInteger(v.n) &&
      (minimum.Some? ==> v.n >= minimum.value) && (maximum.Some? ==> v.n <= maximum.value)
    case BooleanNode(_) => v.Bool?
    case NullNode(_) => v.Null?
    case ArrayNode(_, items, minimumItems, maximumItems, uniqueItems) =>
      v.Arr? && minimumItems <= |v.items| <= maximumItems &&
      (forall e :: e in v.items ==> MatchesCommon(items.common, e) && MatchesShape(items, e)) &&
      (uniqueItems ==> |Elements(v.items)| == |v.items|)
    case ObjectNode(_, properties, required, minimumProperties, maximumProperties) =>
      IsExactDataRecord(v) && minimumProperties <= |v.fields| <= maximumProperties &&
      required <= v.fields.Keys && v.fields.Keys <= properties.Keys &&
      forall k :: k in v.fields && k in properties ==>
        MatchesCommon(properties[k].common, v.fields[k]) && MatchesShape(properties[k], v.fields[k])
  }

  function Elements<T(==)>(s: seq<T>): set<T> {
    set e | e in s
  }

  // ---------------------------------------------------------------------------
  // Compilation, without the shared budget
  // ---------------------------------------------------------------------------

  predicate HasOnlyKeys(schema: Value, allowed: set<string>)
    requires schema.Obj?
  {
    schema.fields.Keys <= allowed
  }

  datatype Count = Absent | Invalid | Given(count: nat) {
    function Or(otherwise: nat): nat {
      if Given? then count else otherwise
    }
  }

  function OptionalCount(schema: Value, key: string, maximum: nat): Count
    requires schema.Obj?
  {
    if key !in schema.fields then Absent
    else
      var v := schema.fields[key];
      if v.Num? && IsSafeInteger(v.n) && 0 <= v.n.Floor <= maximum then Given(v.n.Floor) else Invalid
  }

  predicate IsDistinct<T(==)>(s: seq<T>) {
    |Elements(s)| == |s|
  }

  function CompileCommon(schema: Value): Option<Common>
    requires schema.Obj?
  {
    var constant := if "const" in schema.fields then Some(schema.fields["const"]) else None;
    if "enum" !in schema.fields then Some(Common(constant, None))
    else
      var v := schema.fields["enum"];
      if !v.Arr? || !(1 <= |v.items| <= MAXIMUM_SCHEMA_ENUM_ITEMS_PER_NODE) || !IsDistinct(v.items) then None
      else if constant.Some? && constant.value !in v.items then None
      else Some(Common(constant, Some(Elements(v.items))))
  }

  datatype SchemaType = StringType | NumberType | BooleanType | NullType | ArrayType | ObjectType | UnknownType

  /** The `type` keyword; the subset reads `integer` and `number` alike. */
  function TypeOf(schema: Value): SchemaType
    requires schema.Obj?
  {
    if "type" !in schema.fields || !schema.fields["type"].Str? then UnknownType
    else
      match schema.fields["type"].s
      case "string" => StringType
      case "integer" => NumberType
      case "number" => NumberType
      case "boolean" => BooleanType
      case "null" => NullType
      case "array" => ArrayType
      case "object" => ObjectType
      case _ => UnknownType
  }

  function CompileString(schema: Value, common: Common): Option<Node>
    requires schema.Obj?
  {
    var minimum := OptionalCount(schema, "minLength", MAXIMUM_STRING_CODE_POINTS);
    var maximum := OptionalCount(schema, "maxLength", MAXIMUM_STRING_CODE_POINTS);
    var hasPattern := "pattern" in schema.fields;
    if !HasOnlyKeys(schema, {"type", "const", "enum", "minLength", "maxLength", "pattern"}) ||
       minimum.Invalid? || maximum.Invalid? || (hasPattern && !schema.fields["pattern"].Str?)
    then None
    else
      var pattern := if hasPattern then CompilePattern(schema.fields["pattern"].s) else None;
      if hasPattern && pattern.None? then None
      else
        var minimumLength :=
          Max(minimum.Or(0), if pattern.Some? then pattern.value.minimumCodePoints else 0);
        var maximumLength :=
          Min(maximum.Or(MAXIMUM_STRING_CODE_POINTS),
              if pattern.Some? then pattern.value.maximumCodePoints else MAXIMUM_STRING_CODE_POINTS);
        if minimumLength > maximumLength then None
        else Some(StringNode(common, minimumLength, maximumLength, pattern))
  }

  function Max(a: nat, b: nat): nat { if a < b then b else a }

  function Min(a: nat, b: nat): nat { if a < b then a else b }

  predicate IsBound(schema: Value, key: string)
    requires schema.Obj?
  {
    key in schema.fields ==> schema.fields[key].Num? && IsSafeInteger(schema.fields[key].n)
  }

  function Bound(schema: Value, key: string): Option<real>
    requires schema.Obj? && IsBound(schema, key)
  {
    if key in schema.fields then Some(schema.fields[key].n) else None
  }

  function CompileNumber(schema: Value, common: Common): Option<Node>
    requires schema.Obj?
  {
    if !HasOnlyKeys(schema, {"type", "const", "enum", "minimum", "maximum"}) ||
       !IsBound(schema, "minimum") || !IsBound(schema, "maximum")
    then None
    else
      var minimum, maximum := Bound(schema, "minimum"), Bound(schema, "maximum");
      if minimum.Some? && maximum.Some? && minimum.value > maximum.value then None
      else Some(NumberNode(common, minimum, maximum))
  }

  /** What an array schema must satisfy before its item schema is compiled. */
  predicate IsArrayShell(schema: Value)
    requires schema.Obj?
  {
    var minimum := OptionalCount(schema, "minItems", MAXIMUM_ARGUMENT_ARRAY_ITEMS_PER_ARRAY);
    var maximum := OptionalCount(schema, "maxItems", MAXIMUM_ARGUMENT_ARRAY_ITEMS_PER_ARRAY);
    && HasOnlyKeys(schema, {"type", "const", "enum", "items", "minItems", "maxItems", "uniqueItems"})
    && "items" in schema.fields
    && ("uniqueItems" in schema.fields ==> schema.fields["uniqueItems"].Bool?)
    && !minimum.Invalid? && !maximum.Invalid?
    && minimum.Or(0) <= maximum.Or(MAXIMUM_ARGUMENT_ARRAY_ITEMS_PER_ARRAY)
  }

  function ArrayShell(schema: Value, common: Common, items: Node): Node
    requires schema.Obj?
  {
    ArrayNode(common, items,
              OptionalCount(schema, "minItems", MAXIMUM_ARGUMENT_ARRAY_ITEMS_PER_ARRAY).Or(0),
              OptionalCount(schema, "maxItems", MAXIMUM_ARGUMENT_ARRAY_ITEMS_PER_ARRAY).Or(
                MAXIMUM_ARGUMENT_ARRAY_ITEMS_PER_ARRAY),
              "uniqueItems" in schema.fields && schema.fields["uniqueItems"] == Bool(true))
  }

  /** What an object schema must satisfy before its property schemas are compiled. */
  predicate IsObjectShell(schema: Value)
    requires schema.Obj?
  {
    && HasOnlyKeys(schema, {"type", "const", "enum", "additionalProperties", "required", "properties",
                            "minProperties", "maxProperties"})
    && "additionalProperties" in schema.fields && schema.fields["additionalProperties"] == Bool(false)
    && "properties" in schema.fields && IsExactDataRecord(schema.fields["properties"])
    && "required" in schema.fields && schema.fields["required"].Arr?
    && var required, properties := schema.fields["required"].items, schema.fields["properties"].fields;
    && (forall e :: e in required ==> e.Str? && !IsUnsafeObjectKey(e.s))
    && IsDistinct(required)
    && |properties| <= MAXIMUM_SCHEMA_PROPERTIES_PER_OBJECT
    && (forall e :: e in required ==> e.s in properties)
    && var minimum := OptionalCount(schema, "minProperties", MAXIMUM_SCHEMA_PROPERTIES_PER_OBJECT);
    && var maximum := OptionalCount(schema, "maxProperties", MAXIMUM_SCHEMA_PROPERTIES_PER_OBJECT);
    && !minimum.Invalid? && !maximum.Invalid?
    && Max(minimum.Or(0), |required|) <= Min(maximum.Or(|properties|), |properties|)
  }

  function ObjectShell(schema: Value, common: Common, properties: map<string, Node>): Node
    requires schema.Obj? && IsObjectShell(schema)
  {
    var required := schema.fields["required"].items;
    var n := |schema.fields["properties"].fields|;
    ObjectNode(common, properties, set e | e in required :: e.s,
               Max(OptionalCount(schema, "minProperties", MAXIMUM_SCHEMA_PROPERTIES_PER_OBJECT).Or(0), |required|),
               Min(OptionalCount(schema, "maxProperties", MAXIMUM_SCHEMA_PROPERTIES_PER_OBJECT).Or(n), n))
  }

  /** A node's own `const` and `enum` members match its shape. */
  predicate IsCoherent(node: Node, schema: Value)
    requires schema.Obj?
  {
    && ("const" in schema.fields ==> MatchesShape(node, schema.fields["const"]))
    && ("enum" in schema.fields && schema.fields["enum"].Arr? ==>
          forall e :: e in schema.fields["enum"].items ==> MatchesShape(node, e))
  }

  function Coherent(node: Node, schema: Value): Option<Node>
    requires schema.Obj?
  {
    if IsCoherent(node, schema) then Some(node) else None
  }

  /** Compilation of a schema of any size: the budget is the concern of `SchemaBudget`. */
  function Compile(schema: Value): Option<Node>
    decreases schema, 1
  {
    if !IsExactDataRecord(schema) || TypeOf(schema).UnknownType? then None
    else
      var common := CompileCommon(schema);
      if common.None? then None
      else
        var node := CompileAs(schema, common.value);
        if node.None? then None else Coherent(node.value, schema)
  }

  function CompileAs(schema: Value, common: Common): Option<Node>
    requires schema.Obj?
    decreases schema, 0
  {
    match TypeOf(schema)
    case StringType => CompileString(schema, common)
    case NumberType => CompileNumber(schema, common)
    case BooleanType =>
      if HasOnlyKeys(schema, {"type", "const", "enum"}) then Some(BooleanNode(common)) else None
    case NullType =>
      if HasOnlyKeys(schema, {"type", "const", "enum"}) then Some(NullNode(common)) else None
    case ArrayType =>
      if !IsArrayShell(schema) then None
      else
        var items := Compile(schema.fields["items"]);
        if items.None? then None else Some(ArrayShell(schema, common, items.value))
    case ObjectType =>
      if !IsObjectShell(schema) then None
      else
        var children := schema.fields["properties"].fields;
        if exists k :: k in children && Compile(children[k]).None? then None
        else Some(ObjectShell(schema, common, map k | k in children :: Compile(children[k]).value))
    case UnknownType => None
  }
}
