/** The boundary of the tool-schema module: a registry of compiled schemas, and the
    validation of a call's arguments from end to end. */
module ToolSchemas {
  import opened Wrappers
  import opened Json
  import opened Schema
  import opened SchemaGrammar
  import opened SchemaMeaning
  import opened Inspection
  import opened SchemaMinima
  import opened SchemaVacuity
  import Budget = SchemaBudget

  /** Depth 16 * 3 + 4; nodes, properties and array items 256 * 8. */
  const SCHEMA_LIMITS: Limits := Limits(65536, 52, 2048, 2048, 2048, 256)
  const ARGUMENT_LIMITS: Limits := Limits(262144, 24, 4096, 2048, 2048, 1024)

  type Token = nat

  datatype Validation = IsValid | SchemaInvalid | ArgumentsInvalid

  /** The value `r` is a bounded tree `s`, a schema of the subset, within the compilation
      budget. */
  ghost predicate IsAcceptedSchema(g: Graph, r: Ref, textBytes: Value -> nat, s: Value) {
    && Unfolds(g, r, s) && IsBounded(s, SCHEMA_LIMITS, textBytes)
    && IsSchema(s) && Budget.Fits(Budget.Totals(0, 0, 0), s, 0)
  }

  lemma AcceptedOnItsTree(g: Graph, r: Ref, textBytes: Value -> nat, tree: Value)
    requires Unfolds(g, r, tree) && IsBounded(tree, SCHEMA_LIMITS, textBytes)
    ensures (exists s :: IsAcceptedSchema(g, r, textBytes, s)) <==> IsAcceptedSchema(g, r, textBytes, tree)
    ensures IsAcceptedSchema(g, r, textBytes, tree) <==>
            Compile(tree).Some? && Budget.Fits(Budget.Totals(0, 0, 0), tree, 0)
  {
    hide Unfolds, IsBounded, Compile, IsSchema, Budget.Fits;
    OneTree(g, r, tree);
    SchemasCompileExactly(tree);
  }

  lemma UnboundedIsNotAccepted(g: Graph, r: Ref, textBytes: Value -> nat)
    requires IsUnbounded(g, r, SCHEMA_LIMITS, textBytes)
    ensures forall s :: !IsAcceptedSchema(g, r, textBytes, s)
  {
  }

  ghost predicate IsAcceptedArgument(g: Graph, r: Ref, textBytes: Value -> nat, v: Value) {
    Unfolds(g, r, v) && IsBounded(v, ARGUMENT_LIMITS, textBytes)
  }

  class Registry {
    var compiledRoots: map<Token, Node>
    var issued: nat

    ghost predicate Valid()
      reads this
    {
      forall t :: t in compiledRoots ==> t < issued
    }

    constructor ()
      ensures Valid() && compiledRoots == map[]
    {
      compiledRoots, issued := map[], 0;
    }

    /** Registers the compiled form of an accepted schema under a token of its own and
        leaves every earlier token as it was. */
    method CompileToolSchema(g: Graph, r: Ref, textBytes: Value -> nat) returns (token: Option<Token>, ghost schema: Value)
      requires Valid()
      modifies this
      ensures Valid()
      ensures token.Some? <==> exists s :: IsAcceptedSchema(g, r, textBytes, s)
      ensures token.Some? ==>
                && token.value !in old(compiledRoots) && IsAcceptedSchema(g, r, textBytes, schema)
                && Compile(schema).Some?
                && compiledRoots == old(compiledRoots)[token.value := Compile(schema).value]
      ensures token.None? ==> compiledRoots == old(compiledRoots)
    {
      hide Unfolds, IsBounded, Compile, Budget.Fits, Budget.Measure, IsAcceptedSchema;
      var ok, tree := InspectBoundedJson(g, r, SCHEMA_LIMITS, textBytes);
      schema := tree;
      if !ok {
        UnboundedIsNotAccepted(g, r, textBytes);
        return None, schema;
      }
      AcceptedOnItsTree(g, r, textBytes, tree);
      var budget := new Budget.CompilationBudget();
      var root := Budget.CompileNode(tree, 0, budget);
      if root.None? {
        return None, schema;
      }
      token := Some(issued);
      compiledRoots, issued := compiledRoots[issued := root.value], issued + 1;
    }

    /** Inspects the arguments and matches them against the schema behind the token. */
    method ValidateCompiledToolArguments(token: Token, g: Graph, r: Ref, textBytes: Value -> nat)
      returns (outcome: Validation)
      ensures outcome.SchemaInvalid? <==> token !in compiledRoots
      ensures outcome.IsValid? <==>
              && token in compiledRoots
              && exists v :: IsAcceptedArgument(g, r, textBytes, v) && MatchesNode(compiledRoots[token], v)
    {
      hide Unfolds, IsBounded, MatchesNode;
      if token !in compiledRoots {
        return SchemaInvalid;
      }
      var ok, tree := InspectBoundedJson(g, r, ARGUMENT_LIMITS, textBytes);
      if !ok {
        return ArgumentsInvalid;
      }
      OneTree(g, r, tree);
      assert IsAcceptedArgument(g, r, textBytes, tree);
      outcome := if MatchesNode(compiledRoots[token], tree) then IsValid else ArgumentsInvalid;
    }

    /** A call's arguments are valid exactly when the schema is an accepted one and the
        arguments are a bounded value that satisfies its keywords; a bad schema is told
        apart from bad arguments. */
    method ValidateToolArguments(schemas: Graph, schemaRef: Ref, values: Graph, valueRef: Ref, textBytes: Value -> nat)
      returns (outcome: Validation)
      requires Valid()
      modifies this
      ensures outcome.SchemaInvalid? <==> forall s :: !IsAcceptedSchema(schemas, schemaRef, textBytes, s)
      ensures outcome.IsValid? <==>
              exists s, v ::
                && IsAcceptedSchema(schemas, schemaRef, textBytes, s)
                && IsAcceptedArgument(values, valueRef, textBytes, v)
                && Satisfies(s, v)
    {
      hide Unfolds, IsBounded, MatchesNode, Satisfies, Compile, IsSchema, Budget.Fits;
      var token, s := CompileToolSchema(schemas, schemaRef, textBytes);
      if token.None? {
        return SchemaInvalid;
      }
      outcome := ValidateCompiledToolArguments(token.value, values, valueRef, textBytes);
      OneTree(schemas, schemaRef, s);
      forall v ensures MatchesNode(Compile(s).value, v) <==> Satisfies(s, v) {
        CompilationPreservesMeaning(s, v);
      }
    }
  }

  // ---------------------------------------------------------------------------
  // Which accepted schemas admit an argument
  // ---------------------------------------------------------------------------

  lemma CompiledArray(schema: Value)
    requires Compile(schema).Some? && TypeOf(schema).ArrayType?
    ensures schema.Obj? && "items" in schema.fields && Compile(schema.fields["items"]).Some?
    ensures var node := Compile(schema).value; node.ArrayNode? && node.items == Compile(schema.fields["items"]).value
    ensures Budget.Height(schema) == 1 + Budget.Height(schema.fields["items"])
  {
    hide MatchesShape, CompileCommon;
  }

  lemma CompiledObject(schema: Value, k: string)
    requires Compile(schema).Some? && TypeOf(schema).ObjectType?
    ensures schema.Obj? && "properties" in schema.fields && schema.fields["properties"].Obj?
    ensures var node, properties := Compile(schema).value, schema.fields["properties"].fields;
            && node.ObjectNode? && node.properties.Keys == properties.Keys
            && (k in properties ==> Compile(properties[k]).Some? && node.properties[k] == Compile(properties[k]).value)
    ensures k in schema.fields["properties"].fields ==> Budget.Height(schema.fields["properties"].fields[k]) < Budget.Height(schema)
  {
    hide MatchesShape, CompileCommon;
    var properties := schema.fields["properties"];
    if k in properties.fields {
      Budget.HeightOverIsGreatest(properties, properties.fields.Keys, Budget.HeightOver(properties, properties.fields.Keys));
    }
  }

  lemma CompiledIsRecord(schema: Value)
    requires Compile(schema).Some?
    ensures schema.Obj? && !TypeOf(schema).UnknownType? && Budget.Height(schema) >= 0
  {
    hide CompileAs, CompileCommon;
  }

  lemma CompiledLeaf(schema: Value)
    requires Compile(schema).Some? && !TypeOf(schema).ArrayType? && !TypeOf(schema).ObjectType?
    ensures !Compile(schema).value.ArrayNode? && !Compile(schema).value.ObjectNode?
  {
    hide MatchesShape, CompileCommon;
  }

  /** A node is shallow when what is below it is, one level down. */
  lemma ShallowAbove(node: Node, depth: int)
    requires depth >= 0
    requires node.ArrayNode? ==> IsShallow(node.items, depth - 1)
    requires node.ObjectNode? ==> forall k :: k in node.properties ==> IsShallow(node.properties[k], depth - 1)
    ensures IsShallow(node, depth)
  {
  }

  lemma {:induction false} CompiledIsShallow(schema: Value, depth: int)
    requires Compile(schema).Some? && Budget.Height(schema) <= depth
    ensures IsShallow(Compile(schema).value, depth)
    decreases schema
  {
    hide Compile, TypeOf, Budget.Height, IsShallow;
    CompiledIsRecord(schema);
    var node := Compile(schema).value;
    if TypeOf(schema).ArrayType? {
      CompiledArray(schema);
      CompiledIsShallow(schema.fields["items"], depth - 1);
    } else if TypeOf(schema).ObjectType? {
      CompiledObject(schema, "");
      forall k | k in node.properties ensures IsShallow(node.properties[k], depth - 1) {
        CompiledObject(schema, k);
        CompiledIsShallow(schema.fields["properties"].fields[k], depth - 1);
      }
    } else {
      CompiledLeaf(schema);
    }
    ShallowAbove(node, depth);
  }

  /** Of a schema that compiles within the budget, no satisfying value is too deep, and none
      has an unsafe number or key or too long an array: an argument is refused for its
      counts or its text alone. */
  lemma RefusedForCountsOnly(schema: Value, v: Value, textBytes: Value -> nat)
    requires Compile(schema).Some? && Budget.Fits(Budget.Totals(0, 0, 0), schema, 0) && Satisfies(schema, v)
    ensures IsBounded(v, ARGUMENT_LIMITS, textBytes) <==>
            IsWithin(CountsOf(v), ARGUMENT_LIMITS) && textBytes(v) <= ARGUMENT_LIMITS.maximumBytes
  {
    hide Satisfies, Compile, IsWellFormed, IsShallow, IsRegular, CountsOf, IsBounded, Budget.Fits, MatchesShape, IsWithin;
    FitsIsLow(schema);
    CompiledIsWellFormed(schema);
    CompilationPreservesMeaning(schema, v);
    CompiledIsShallow(schema, ARGUMENT_LIMITS.maximumDepth);
    AcceptedIsRegular(Compile(schema).value, v, ARGUMENT_LIMITS, ARGUMENT_LIMITS.maximumDepth);
    RegularIsBounded(v, textBytes);
  }

  lemma FitsIsLow(schema: Value)
    requires Budget.Fits(Budget.Totals(0, 0, 0), schema, 0)
    ensures Budget.Height(schema) <= ARGUMENT_LIMITS.maximumDepth
  {
    hide Budget.Height, Budget.Measure;
  }

  lemma RegularIsBounded(v: Value, textBytes: Value -> nat)
    requires IsRegular(v, ARGUMENT_LIMITS, ARGUMENT_LIMITS.maximumDepth)
    ensures IsBounded(v, ARGUMENT_LIMITS, textBytes) <==>
            IsWithin(CountsOf(v), ARGUMENT_LIMITS) && textBytes(v) <= ARGUMENT_LIMITS.maximumBytes
  {
    FromNothing(CountsOf(v));
    assert ARGUMENT_LIMITS.maximumDepth - 0 == ARGUMENT_LIMITS.maximumDepth;
    hide SumOf, SumOver, IsWithin, Plus;
  }

  lemma FromNothing(c: Counts)
    ensures Plus(Counts(0, 0, 0), c) == c
  {
  }

  /** Each count on its own: a satisfying value has no more nodes, properties or items than
      the argument limits allow exactly when the least the compiled schema needs does. */
  lemma EachLimitExactly(schema: Value)
    requires Compile(schema).Some?
    ensures var least := metric => Least(metric, Compile(schema).value);
            && ((exists v :: Satisfies(schema, v) && CountsOf(v).properties <= ARGUMENT_LIMITS.maximumProperties) <==>
                least(PropertyCount).Some? && least(PropertyCount).value <= ARGUMENT_LIMITS.maximumProperties)
            && ((exists v :: Satisfies(schema, v) && CountsOf(v).arrayItems <= ARGUMENT_LIMITS.maximumArrayItems) <==>
                least(ItemCount).Some? && least(ItemCount).value <= ARGUMENT_LIMITS.maximumArrayItems)
            && ((exists v :: Satisfies(schema, v) && CountsOf(v).nodes <= ARGUMENT_LIMITS.maximumNodes) <==>
                least(BothCounts).Some? && least(BothCounts).value < ARGUMENT_LIMITS.maximumNodes)
  {
    hide Satisfies, Compile, Least, CountsOf;
    forall v ensures CountsOf(v).nodes == 1 + Cost(BothCounts, v) {
      NodesAreCounted(v);
    }
    LimitExactly(schema, PropertyCount, ARGUMENT_LIMITS.maximumProperties);
    LimitExactly(schema, ItemCount, ARGUMENT_LIMITS.maximumArrayItems);
    LimitExactly(schema, BothCounts, ARGUMENT_LIMITS.maximumNodes - 1);
    assert forall v :: CountsOf(v).properties == Cost(PropertyCount, v) && CountsOf(v).arrayItems == Cost(ItemCount, v);
  }

  /** All limits together: a schema whose least properties and items add up to 2048 has a
      satisfying value within every count, so that only its text can be refused. */
  lemma LeastTogetherSuffices(schema: Value, textBytes: Value -> nat) returns (v: Value)
    requires Compile(schema).Some? && Budget.Fits(Budget.Totals(0, 0, 0), schema, 0)
    requires var least := Least(BothCounts, Compile(schema).value);
             least.Some? && least.value <= ARGUMENT_LIMITS.maximumProperties
    ensures Satisfies(schema, v)
    ensures IsBounded(v, ARGUMENT_LIMITS, textBytes) <==> textBytes(v) <= ARGUMENT_LIMITS.maximumBytes
  {
    hide Satisfies, Compile, Least, CountsOf, Budget.Fits, IsBounded;
    LimitExactly(schema, BothCounts, ARGUMENT_LIMITS.maximumProperties);
    v :| Satisfies(schema, v) && Cost(BothCounts, v) <= ARGUMENT_LIMITS.maximumProperties;
    NodesAreCounted(v);
    RefusedForCountsOnly(schema, v, textBytes);
  }

  /** And an admitted argument needs room under each of them. */
  lemma AdmittedNeedsRoom(schema: Value, v: Value, textBytes: Value -> nat)
    requires Compile(schema).Some? && Satisfies(schema, v) && IsBounded(v, ARGUMENT_LIMITS, textBytes)
    ensures forall metric :: Least(metric, Compile(schema).value).Some?
    ensures var least := metric => Least(metric, Compile(schema).value).value;
            && least(PropertyCount) <= ARGUMENT_LIMITS.maximumProperties
            && least(ItemCount) <= ARGUMENT_LIMITS.maximumArrayItems
            && least(BothCounts) < ARGUMENT_LIMITS.maximumNodes
  {
    hide Satisfies, Compile, Least, CountsOf, IsRegular;
    NodesAreCounted(v);
    assert Plus(Counts(0, 0, 0), CountsOf(v)) == CountsOf(v);
    forall metric ensures Least(metric, Compile(schema).value).Some? {
      LimitExactly(schema, metric, Cost(metric, v));
    }
    LimitExactly(schema, PropertyCount, ARGUMENT_LIMITS.maximumProperties);
    LimitExactly(schema, ItemCount, ARGUMENT_LIMITS.maximumArrayItems);
    LimitExactly(schema, BothCounts, ARGUMENT_LIMITS.maximumNodes - 1);
  }

  // ---------------------------------------------------------------------------
  // Satisfiable, and yet without arguments
  // ---------------------------------------------------------------------------

  function ListOf(items: Value, minimum: nat): Value {
    Obj(map["type" := Str("array"), "items" := items, "minItems" := Num(minimum as real)])
  }

  function FullList(): Value {
    ListOf(Obj(map["type" := Str("null")]), 1024)
  }

  function TwoFullLists(): Value {
    ListOf(FullList(), 2)
  }

  const FULL_LIST := ArrayNode(Common(None, None), NullNode(Common(None, None)), 1024, 1024, false)

  lemma ListOfIsShell(items: Value, minimum: nat)
    requires minimum <= 1024
    ensures var schema := ListOf(items, minimum);
            && IsExactDataRecord(schema) && TypeOf(schema).ArrayType? && CompileCommon(schema) == Some(Common(None, None))
            && IsArrayShell(schema) && schema.fields["items"] == items
            && OptionalCount(schema, "minItems", 1024) == Given(minimum) && "maxItems" !in schema.fields
            && "uniqueItems" !in schema.fields && "const" !in schema.fields && "enum" !in schema.fields
  {
    assert (minimum as real).Floor == minimum;
  }

  lemma ListOfCompiles(items: Value, minimum: nat, node: Node)
    requires minimum <= 1024 && Compile(items) == Some(node)
    ensures Compile(ListOf(items, minimum)) == Some(ArrayNode(Common(None, None), node, minimum, 1024, false))
  {
    hide MatchesShape, ListOf, TypeOf, CompileCommon, IsArrayShell, IsExactDataRecord;
    ListOfIsShell(items, minimum);
  }

  lemma NullCompiles()
    ensures Compile(Obj(map["type" := Str("null")])) == Some(NullNode(Common(None, None)))
  {
    hide MatchesShape;
  }

  lemma TwoFullListsCompile()
    ensures Compile(TwoFullLists()) == Some(ArrayNode(Common(None, None), FULL_LIST, 2, 1024, false))
  {
    hide Compile, ListOf;
    NullCompiles();
    ListOfCompiles(Obj(map["type" := Str("null")]), 1024, NullNode(Common(None, None)));
    ListOfCompiles(FullList(), 2, FULL_LIST);
  }

  lemma TwoFullListsHoldTooMany(v: Value)
    requires MatchesShape(ArrayNode(Common(None, None), FULL_LIST, 2, 1024, false), v)
    ensures CountsOf(v).arrayItems > ARGUMENT_LIMITS.maximumArrayItems
  {
    var counts := CountsOfEach(v.items);
    assert v.items[0] in v.items && v.items[1] in v.items;
    CountsOfArray(v.items[0].items);
    CountsOfArray(v.items[1].items);
    CountsOfArray(v.items);
    SumGrows(counts, 2);
    assert counts[..2][..1] == counts[..1] && counts[..1][..0] == [];
    assert SumOf(counts[..1]) == Plus(SumOf([]), counts[0]);
    assert SumOf(counts[..2]) == Plus(SumOf(counts[..1]), counts[1]);
  }

  /** A schema that compiles and has satisfying values, none of which is a bounded argument:
      the limits on arguments are not part of what compilation looks at. */
  lemma SatisfyingValuesCanAllBeUnbounded(textBytes: Value -> nat) returns (v: Value)
    ensures Compile(TwoFullLists()).Some? && Satisfies(TwoFullLists(), v)
    ensures forall w :: Satisfies(TwoFullLists(), w) ==> !IsBounded(w, ARGUMENT_LIMITS, textBytes)
  {
    hide Satisfies, Compile, TwoFullLists, CountsOf, IsRegular;
    TwoFullListsCompile();
    v := AcceptedSchemaIsNotVacuous(TwoFullLists());
    forall w | Satisfies(TwoFullLists(), w) ensures !IsBounded(w, ARGUMENT_LIMITS, textBytes) {
      CompilationPreservesMeaning(TwoFullLists(), w);
      TwoFullListsHoldTooMany(w);
    }
  }
}
