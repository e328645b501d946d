/** The budgeted compiler: shared counters, checked as they grow, against whole-tree
    measures of the schema. */
module SchemaBudget {
  import opened Wrappers
  import opened Json
  import opened Schema

  const MAXIMUM_SCHEMA_DEPTH: nat := 16
  const MAXIMUM_SCHEMA_NODES: nat := 256
  const MAXIMUM_SCHEMA_PROPERTIES: nat := 256
  const MAXIMUM_SCHEMA_ENUM_ITEMS: nat := 256

  datatype Totals = Totals(nodes: nat, properties: nat, enumItems: nat)

  function Plus(a: Totals, b: Totals): Totals {
    Totals(a.nodes + b.nodes, a.properties + b.properties, a.enumItems + b.enumItems)
  }

  predicate IsWithin(t: Totals) {
    && t.nodes <= MAXIMUM_SCHEMA_NODES
    && t.properties <= MAXIMUM_SCHEMA_PROPERTIES
    && t.enumItems <= MAXIMUM_SCHEMA_ENUM_ITEMS
  }

  class CompilationBudget {
    var nodes: nat
    var properties: nat
    var enumItems: nat

    constructor ()
      ensures Spent() == Totals(0, 0, 0)
    {
      nodes, properties, enumItems := 0, 0, 0;
    }

    function Spent(): Totals
      reads this
    {
      Totals(nodes, properties, enumItems)
    }
  }

  // ---------------------------------------------------------------------------
  // Whole-tree measures
  // ---------------------------------------------------------------------------

  predicate HasItems(schema: Value) {
    schema.Obj? && TypeOf(schema).ArrayType? && "items" in schema.fields
  }

  predicate HasProperties(schema: Value) {
    schema.Obj? && TypeOf(schema).ObjectType? && "properties" in schema.fields && schema.fields["properties"].Obj?
  }

  function EnumSize(schema: Value): nat {
    if schema.Obj? && "enum" in schema.fields && schema.fields["enum"].Arr? then |schema.fields["enum"].items| else 0
  }

  /** Nodes, listed properties and enum items of a schema and everything below it. */
  ghost function Measure(schema: Value): Totals
    decreases schema, 0
  {
    if HasItems(schema) then
      Plus(Totals(1, 0, EnumSize(schema)), Measure(schema.fields["items"]))
    else if HasProperties(schema) then
      var children := schema.fields["properties"];
      Plus(Totals(1, |children.fields|, EnumSize(schema)), MeasureOver(children, children.fields.Keys))
    else Totals(1, 0, EnumSize(schema))
  }

  ghost function MeasureOver(children: Value, keys: set<string>): Totals
    requires children.Obj? && keys <= children.fields.Keys
    decreases children, |keys|
  {
    if keys == {} then Totals(0, 0, 0)
    else
      var k := PickKey(keys);
      Plus(Measure(children.fields[k]), MeasureOver(children, keys - {k}))
  }

  /** The number of schema levels below this one. */
  ghost function Height(schema: Value): nat
    decreases schema, 0
  {
    if HasItems(schema) then 1 + Height(schema.fields["items"])
    else if HasProperties(schema) && schema.fields["properties"].fields != map[] then
      1 + HeightOver(schema.fields["properties"], schema.fields["properties"].fields.Keys)
    else 0
  }

  ghost function HeightOver(children: Value, keys: set<string>): nat
    requires children.Obj? && keys <= children.fields.Keys
    decreases children, |keys|
  {
    if keys == {} then 0
    else
      var k := PickKey(keys);
      Max(Height(children.fields[k]), HeightOver(children, keys - {k}))
  }

  /** The sum does not depend on which property is taken out first. */
  lemma {:induction false} MeasureOverTakesAny(children: Value, keys: set<string>, k: string)
    requires children.Obj? && keys <= children.fields.Keys && k in keys
    ensures MeasureOver(children, keys) == Plus(Measure(children.fields[k]), MeasureOver(children, keys - {k}))
    decreases |keys|
  {
    hide Measure;
    var first := PickKey(keys);
    if first != k {
      MeasureOverTakesAny(children, keys - {first}, k);
      MeasureOverTakesAny(children, keys - {k}, first);
      assert keys - {first} - {k} == keys - {k} - {first};
    }
  }

  predicate IsAtMost(a: Totals, b: Totals) {
    a.nodes <= b.nodes && a.properties <= b.properties && a.enumItems <= b.enumItems
  }

  lemma {:induction false} MeasureOverGrows(children: Value, some: set<string>, all: set<string>)
    requires children.Obj? && some <= all <= children.fields.Keys
    ensures IsAtMost(MeasureOver(children, some), MeasureOver(children, all))
    decreases |some|
  {
    hide Measure;
    if some != {} {
      var k := PickKey(some);
      MeasureOverTakesAny(children, all, k);
      MeasureOverGrows(children, some - {k}, all - {k});
    }
  }

  lemma {:induction false} HeightOverIsGreatest(children: Value, keys: set<string>, bound: int)
    requires children.Obj? && keys <= children.fields.Keys && keys != {}
    ensures HeightOver(children, keys) <= bound <==> forall k :: k in keys ==> Height(children.fields[k]) <= bound
    decreases |keys|
  {
    hide Height;
    var k := PickKey(keys);
    if keys != {k} {
      HeightOverIsGreatest(children, keys - {k}, bound);
    } else {
      assert keys - {k} == {};
    }
  }

  // ---------------------------------------------------------------------------
  // The compiler
  // ---------------------------------------------------------------------------

  /** The tree fits what is left of the budget and of the depth. */
  ghost predicate Fits(spent: Totals, schema: Value, depth: nat) {
    IsWithin(Plus(spent, Measure(schema))) && depth + Height(schema) <= MAXIMUM_SCHEMA_DEPTH
  }

  method CompileCommonWithin(schema: Value, budget: CompilationBudget) returns (common: Option<Common>)
    requires schema.Obj? && IsWithin(budget.Spent())
    modifies budget
    ensures common.Some? <==>
            CompileCommon(schema).Some? && IsWithin(Plus(old(budget.Spent()), Totals(0, 0, EnumSize(schema))))
    ensures common.Some? ==> common == CompileCommon(schema)
    ensures common.Some? ==> budget.Spent() == Plus(old(budget.Spent()), Totals(0, 0, EnumSize(schema)))
  {
    if "enum" in schema.fields {
      var members := schema.fields["enum"];
      if !members.Arr? || |members.items| < 1 || |members.items| > MAXIMUM_SCHEMA_ENUM_ITEMS_PER_NODE {
        return None;
      }
      budget.enumItems := budget.enumItems + |members.items|;
      if budget.enumItems > MAXIMUM_SCHEMA_ENUM_ITEMS {
        return None;
      }
    }
    return CompileCommon(schema);
  }

  /** What an array or object schema has left to spend below itself. */
  ghost function Below(schema: Value): Totals {
    if HasItems(schema) then Measure(schema.fields["items"])
    else if HasProperties(schema) then
      var children := schema.fields["properties"];
      Plus(Totals(0, |children.fields|, 0), MeasureOver(children, children.fields.Keys))
    else Totals(0, 0, 0)
  }

  lemma OneLevel(schema: Value)
    requires schema.Obj?
    ensures Measure(schema) == Plus(Totals(1, 0, EnumSize(schema)), Below(schema))
    ensures !TypeOf(schema).ArrayType? && !TypeOf(schema).ObjectType? ==> Below(schema) == Totals(0, 0, 0) && Height(schema) == 0
  {
  }

  lemma EveryNodeCounts(schema: Value)
    ensures Measure(schema).nodes >= 1
  {
  }

  lemma CompileUnfolds(schema: Value)
    ensures Compile(schema) ==
            if !IsExactDataRecord(schema) || TypeOf(schema).UnknownType? then None
            else if CompileCommon(schema).None? || CompileAs(schema, CompileCommon(schema).value).None? then None
            else Coherent(CompileAs(schema, CompileCommon(schema).value).value, schema)
  {
  }

  /** The source's recursive compiler: it stops at the first counter to pass its limit,
      and so succeeds exactly when the schema compiles and its whole-tree totals fit. */
  method CompileNode(schema: Value, depth: nat, budget: CompilationBudget) returns (node: Option<Node>)
    requires IsWithin(budget.Spent())
    modifies budget
    ensures node.Some? <==> Compile(schema).Some? && Fits(old(budget.Spent()), schema, depth)
    ensures node.Some? ==> node == Compile(schema)
    ensures node.Some? ==> budget.Spent() == Plus(old(budget.Spent()), Measure(schema))
    decreases schema, 1
  {
    if schema.Obj? { OneLevel(schema); }
    CompileUnfolds(schema);
    ghost var record := IsExactDataRecord(schema);
    assert record ==> schema.Obj?;
    hide IsCoherent, CompileCommon, Measure, Below, Height, Compile, CompileAs, TypeOf, EnumSize, IsExactDataRecord;
    budget.nodes := budget.nodes + 1;
    if depth > MAXIMUM_SCHEMA_DEPTH || budget.nodes > MAXIMUM_SCHEMA_NODES || !IsExactDataRecord(schema) {
      EveryNodeCounts(schema);
      return None;
    }
    if TypeOf(schema).UnknownType? {
      return None;
    }
    var common := CompileCommonWithin(schema, budget);
    if common.None? {
      return None;
    }
    if TypeOf(schema).ArrayType? {
      node := CompileArray(schema, common.value, depth, budget);
    } else if TypeOf(schema).ObjectType? {
      node := CompileObject(schema, common.value, depth, budget);
    } else {
      node := CompileAs(schema, common.value);
    }
    if node.None? {
      return None;
    }
    return Coherent(node.value, schema);
  }

  method CompileArray(schema: Value, common: Common, depth: nat, budget: CompilationBudget) returns (node: Option<Node>)
    requires schema.Obj? && TypeOf(schema).ArrayType? && IsWithin(budget.Spent()) && depth <= MAXIMUM_SCHEMA_DEPTH
    modifies budget
    ensures node.Some? <==>
            && CompileAs(schema, common).Some? && depth + Height(schema) <= MAXIMUM_SCHEMA_DEPTH
            && IsWithin(Plus(old(budget.Spent()), Below(schema)))
    ensures node.Some? ==> node == CompileAs(schema, common)
    ensures node.Some? ==> budget.Spent() == Plus(old(budget.Spent()), Below(schema))
    decreases schema, 0
  {
    if !IsArrayShell(schema) {
      return None;
    }
    var items := CompileNode(schema.fields["items"], depth + 1, budget);
    if items.None? {
      return None;
    }
    return Some(ArrayShell(schema, common, items.value));
  }

  ghost predicate AllCompile(children: Value, keys: set<string>)
    requires children.Obj? && keys <= children.fields.Keys
  {
    forall k :: k in keys ==> Compile(children.fields[k]).Some?
  }

  ghost predicate AllFitDepth(children: Value, keys: set<string>, depth: nat)
    requires children.Obj? && keys <= children.fields.Keys
  {
    forall k :: k in keys ==> depth + Height(children.fields[k]) <= MAXIMUM_SCHEMA_DEPTH
  }

  ghost function Nodes(children: Value): map<string, Node>
    requires children.Obj? && AllCompile(children, children.fields.Keys)
  {
    map k | k in children.fields :: Compile(children.fields[k]).value
  }

  lemma ObjectCase(schema: Value, common: Common)
    requires schema.Obj? && TypeOf(schema).ObjectType? && IsObjectShell(schema)
    ensures var children := schema.fields["properties"];
            CompileAs(schema, common) ==
            if AllCompile(children, children.fields.Keys) then Some(ObjectShell(schema, common, Nodes(children)))
            else None
  {
  }

  /** An object's height fits exactly when every property's does one level down. */
  lemma ObjectHeight(schema: Value, depth: nat)
    requires HasProperties(schema) && depth <= MAXIMUM_SCHEMA_DEPTH
    ensures var children := schema.fields["properties"];
            depth + Height(schema) <= MAXIMUM_SCHEMA_DEPTH <==>
            AllFitDepth(children, children.fields.Keys, depth + 1)
  {
    var children := schema.fields["properties"];
    if children.fields != map[] {
      HeightOverIsGreatest(children, children.fields.Keys, MAXIMUM_SCHEMA_DEPTH - depth - 1);
    }
  }

  method CompileObject(schema: Value, common: Common, depth: nat, budget: CompilationBudget) returns (node: Option<Node>)
    requires schema.Obj? && TypeOf(schema).ObjectType? && IsWithin(budget.Spent()) && depth <= MAXIMUM_SCHEMA_DEPTH
    modifies budget
    ensures node.Some? <==>
            && CompileAs(schema, common).Some? && depth + Height(schema) <= MAXIMUM_SCHEMA_DEPTH
            && IsWithin(Plus(old(budget.Spent()), Below(schema)))
    ensures node.Some? ==> node == CompileAs(schema, common)
    ensures node.Some? ==> budget.Spent() == Plus(old(budget.Spent()), Below(schema))
    decreases schema, 0
  {
    if !IsObjectShell(schema) {
      return None;
    }
    var children := schema.fields["properties"];
    ObjectCase(schema, common);
    ObjectHeight(schema, depth);
    budget.properties := budget.properties + |children.fields|;
    if budget.properties > MAXIMUM_SCHEMA_PROPERTIES {
      return None;
    }
    var properties := CompileProperties(children, depth + 1, budget);
    if properties.None? {
      return None;
    }
    assert properties.value == Nodes(children);
    return Some(ObjectShell(schema, common, properties.value));
  }

  method CompileProperties(children: Value, depth: nat, budget: CompilationBudget)
    returns (properties: Option<map<string, Node>>)
    requires children.Obj? && IsWithin(budget.Spent())
    modifies budget
    ensures var keys := children.fields.Keys;
            properties.Some? <==>
              && AllCompile(children, keys) && AllFitDepth(children, keys, depth)
              && IsWithin(Plus(old(budget.Spent()), MeasureOver(children, keys)))
    ensures properties.Some? ==>
              && properties.value.Keys == children.fields.Keys
              && (forall k :: k in children.fields ==> Compile(children.fields[k]) == Some(properties.value[k]))
              && budget.Spent() == Plus(old(budget.Spent()), MeasureOver(children, children.fields.Keys))
    decreases children
  {
    hide Compile, Measure, Height;
    var compiledSoFar: map<string, Node> := map[];
    var remaining := children.fields.Keys;
    ghost var all := children.fields.Keys;
    while remaining != {}
      invariant remaining <= all && compiledSoFar.Keys == all - remaining
      invariant forall k :: k in compiledSoFar ==> Compile(children.fields[k]) == Some(compiledSoFar[k])
      invariant AllFitDepth(children, all - remaining, depth)
      invariant budget.Spent() == Plus(old(budget.Spent()), MeasureOver(children, all - remaining))
      invariant IsWithin(budget.Spent())
      decreases remaining
    {
      var key :| key in remaining;
      ghost var done, withKey := all - remaining, all - remaining + {key};
      MeasureOverTakesAny(children, withKey, key);
      assert withKey - {key} == done;
      MeasureOverGrows(children, withKey, all);
      var compiled := CompileNode(children.fields[key], depth, budget);
      if compiled.None? {
        return None;
      }
      compiledSoFar := compiledSoFar[key := compiled.value];
      remaining := remaining - {key};
      assert all - remaining == withKey;
    }
    assert all - remaining == all;
    return Some(compiledSoFar);
  }
}
