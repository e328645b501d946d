/** A direct reading of a tool schema, one keyword at a time, and the proof that compiling
    a schema preserves it. */
module SchemaMeaning {
  import opened Wrappers
  import opened Json
  import opened Patterns
  import opened Schema

  // ---------------------------------------------------------------------------
  // The keywords
  // ---------------------------------------------------------------------------

  /** What the `type` keyword asks for, by its text; `integer` and `number` ask for the
      same, and any other text for nothing a value can be. */
  predicate HasType(schema: Value, v: Value)
    requires schema.Obj?
  {
    && "type" in schema.fields && schema.fields["type"].Str?
    && var text := schema.fields["type"].s;
       || (text == "string" && v.Str?)
       || ((text == "integer" || text == "number") && v.Num? && IsSafeInteger(v.n))
       || (text == "boolean" && v.Bool?)
       || (text == "null" && v.Null?)
       || (text == "array" && v.Arr?)
       || (text == "object" && v.Obj?)
  }

  /** Keyword `key`, if present with a number, is at most `n`. */
  predicate AtLeast(schema: Value, key: string, n: real)
    requires schema.Obj?
  {
    key in schema.fields && schema.fields[key].Num? ==> n >= schema.fields[key].n
  }

  predicate AtMost(schema: Value, key: string, n: real)
    requires schema.Obj?
  {
    key in schema.fields && schema.fields[key].Num? ==> n <= schema.fields[key].n
  }

  predicate ValueKeywords(schema: Value, v: Value)
    requires schema.Obj?
  {
    && ("const" in schema.fields ==> v == schema.fields["const"])
    && ("enum" in schema.fields && schema.fields["enum"].Arr? ==> v in schema.fields["enum"].items)
  }

  predicate StringKeywords(schema: Value, s: string)
    requires schema.Obj?
  {
    && AtLeast(schema, "minLength", |s| as real)
    && AtMost(schema, "maxLength", |s| as real)
    && |s| <= MAXIMUM_STRING_CODE_POINTS
    && ("pattern" in schema.fields && schema.fields["pattern"].Str? ==>
          RegexAccepts(schema.fields["pattern"].s, s))
  }

  predicate ArrayKeywords(schema: Value, items: seq<Value>)
    requires schema.Obj?
  {
    && AtLeast(schema, "minItems", |items| as real)
    && AtMost(schema, "maxItems", |items| as real)
    && |items| <= MAXIMUM_ARGUMENT_ARRAY_ITEMS_PER_ARRAY
    && ("uniqueItems" in schema.fields && schema.fields["uniqueItems"] == Bool(true) ==>
          forall i, j :: 0 <= i < j < |items| ==> items[i] != items[j])
  }

  predicate ObjectKeywords(schema: Value, fields: map<string, Value>)
    requires schema.Obj?
  {
    && AtLeast(schema, "minProperties", |fields| as real)
    && AtMost(schema, "maxProperties", |fields| as real)
    && ("required" in schema.fields && schema.fields["required"].Arr? ==>
          forall e :: e in schema.fields["required"].items && e.Str? ==> e.s in fields)
    && ("additionalProperties" in schema.fields && schema.fields["additionalProperties"] == Bool(false) ==>
          forall k :: k in fields ==>
            "properties" in schema.fields && schema.fields["properties"].Obj? &&
            k in schema.fields["properties"].fields)
  }

  /** Every keyword of `schema` holds of `v`; a keyword for one type says nothing of others. */
  predicate Satisfies(schema: Value, v: Value)
    decreases schema, 1
  {
    schema.Obj? && ValueKeywords(schema, v) && HasShape(schema, v)
  }

  /** Every keyword but `const` and `enum` does. */
  predicate HasShape(schema: Value, v: Value)
    requires schema.Obj?
    decreases schema, 0
  {
    && HasType(schema, v)
    && (v.Str? ==> StringKeywords(schema, v.s))
    && (v.Num? ==> AtLeast(schema, "minimum", v.n) && AtMost(schema, "maximum", v.n))
    && (v.Arr? ==>
          && ArrayKeywords(schema, v.items)
          && ("items" in schema.fields ==> forall e :: e in v.items ==> Satisfies(schema.fields["items"], e)))
    && (v.Obj? ==>
          && ObjectKeywords(schema, v.fields)
          && ("properties" in schema.fields && schema.fields["properties"].Obj? ==>
                forall k :: k in schema.fields["properties"].fields && k in v.fields ==>
                  Satisfies(schema.fields["properties"].fields[k], v.fields[k])))
  }

  // ---------------------------------------------------------------------------
  // Counting
  // ---------------------------------------------------------------------------

  lemma {:induction false} ElementsAreFewer<T>(s: seq<T>)
    ensures |Elements(s)| <= |s|
    ensures |Elements(s)| == |s| <==> forall i, j :: 0 <= i < j < |s| ==> s[i] != s[j]
  {
    if s != [] {
      var rest := s[1..];
      ElementsAreFewer(rest);
      assert Elements(s) == {s[0]} + Elements(rest);
      assert forall i :: 1 <= i < |s| ==> s[i] == rest[i - 1];
      if s[0] in rest {
        var j :| 0 <= j < |rest| && rest[j] == s[0];
        assert s[j + 1] == s[0];
        assert Elements(s) == Elements(rest);
      } else {
        assert forall i :: 1 <= i < |s| ==> s[i] in rest;
        assert |Elements(s)| == 1 + |Elements(rest)|;
        assert forall i :: 0 <= i < |rest| ==> rest[i] == s[i + 1];
        assert (forall i, j :: 0 <= i < j < |rest| ==> rest[i] != rest[j]) <==>
               forall i, j :: 0 <= i < j < |s| ==> s[i] != s[j];
      }
    }
  }

  lemma SubsetIsSmaller<T>(a: set<T>, b: set<T>)
    requires a <= b
    ensures |a| <= |b|
  {
    assert b == a + (b - a);
  }

  function Names(required: seq<Value>): set<string>
    requires forall e :: e in required ==> e.Str?
  {
    set e | e in required :: e.s
  }

  lemma NamesOfCons(first: Value, rest: seq<Value>)
    requires first.Str? && forall e :: e in rest ==> e.Str?
    ensures Names([first] + rest) == {first.s} + Names(rest)
    ensures first !in rest ==> first.s !in Names(rest)
  {
    assert forall e :: e in [first] + rest <==> e == first || e in rest;
  }

  lemma {:induction false} DistinctNames(required: seq<Value>)
    requires forall e :: e in required ==> e.Str?
    requires IsDistinct(required)
    ensures |Names(required)| == |required|
  {
    hide Names, Elements;
    ElementsAreFewer(required);
    if required == [] {
      NoNames();
    } else {
      var rest := required[1..];
      assert required == [required[0]] + rest;
      ElementsAreFewer(rest);
      assert forall i :: 0 <= i < |rest| ==> rest[i] == required[i + 1];
      NamesOfCons(required[0], rest);
      DistinctNames(rest);
    }
  }

  lemma NoNames()
    ensures Names([]) == {}
  {
  }

  // ---------------------------------------------------------------------------
  // One type at a time
  // ---------------------------------------------------------------------------

  lemma CountBounds(schema: Value, low: string, high: string, maximum: nat, n: nat)
    requires schema.Obj?
    requires !OptionalCount(schema, low, maximum).Invalid? && !OptionalCount(schema, high, maximum).Invalid?
    ensures AtLeast(schema, low, n as real) <==> OptionalCount(schema, low, maximum).Or(0) <= n
    ensures AtMost(schema, high, n as real) <==> OptionalCount(schema, high, maximum).Or(n) >= n
  {
  }

  lemma CommonMeaning(schema: Value, v: Value)
    requires schema.Obj? && CompileCommon(schema).Some?
    ensures MatchesCommon(CompileCommon(schema).value, v) <==> ValueKeywords(schema, v)
  {
  }

  /** Tightening a length by the pattern's own bounds changes nothing. */
  lemma StringMeaning(schema: Value, common: Common, s: string)
    requires schema.Obj? && CompileString(schema, common).Some?
    ensures MatchesShape(CompileString(schema, common).value, Str(s)) <==> StringKeywords(schema, s)
  {
    CountBounds(schema, "minLength", "maxLength", MAXIMUM_STRING_CODE_POINTS, |s|);
    if "pattern" in schema.fields {
      var text := schema.fields["pattern"].s;
      CompiledPatternIsExact(text, s);
      if MatchesPattern(CompilePattern(text).value, s) {
        MatchLengthIsBounded(text, s);
      }
    }
  }

  lemma ArrayMeaning(schema: Value, common: Common, items: Node, v: seq<Value>)
    requires schema.Obj? && IsArrayShell(schema)
    requires forall e :: e in v ==> (MatchesNode(items, e) <==> Satisfies(schema.fields["items"], e))
    ensures MatchesShape(ArrayShell(schema, common, items), Arr(v)) <==>
            ArrayKeywords(schema, v) && forall e :: e in v ==> Satisfies(schema.fields["items"], e)
  {
    CountBounds(schema, "minItems", "maxItems", MAXIMUM_ARGUMENT_ARRAY_ITEMS_PER_ARRAY, |v|);
    ElementsAreFewer(v);
    assert forall e :: e in v ==> (MatchesNode(items, e) <==> MatchesCommon(items.common, e) && MatchesShape(items, e));
  }

  /** The property counts an object node accepts: the minimum raised to the number of
      required names, the maximum lowered to the number of listed ones. */
  predicate CountFits(schema: Value, n: nat)
    requires schema.Obj? && IsObjectShell(schema)
  {
    var shell := ObjectShell(schema, Common(None, None), map[]);
    shell.minimumProperties <= n <= shell.maximumProperties
  }

  predicate NamesFit(schema: Value, v: map<string, Value>)
    requires schema.Obj? && IsObjectShell(schema)
  {
    Names(schema.fields["required"].items) <= v.Keys <= schema.fields["properties"].fields.Keys
  }

  lemma ObjectMatches(schema: Value, common: Common, properties: map<string, Node>, v: map<string, Value>)
    requires schema.Obj? && IsObjectShell(schema)
    requires properties.Keys == schema.fields["properties"].fields.Keys
    ensures MatchesShape(ObjectShell(schema, common, properties), Obj(v)) <==>
            && CountFits(schema, |v|) && NamesFit(schema, v)
            && forall k :: k in properties && k in v ==> MatchesNode(properties[k], v[k])
  {
    hide MatchesCommon;
    assert forall k :: k in v && k in properties ==>
      (MatchesNode(properties[k], v[k]) <==> MatchesCommon(properties[k].common, v[k]) && MatchesShape(properties[k], v[k]));
  }

  /** Tightening the counts by the required and the listed names changes nothing. */
  lemma ObjectCounts(schema: Value, v: map<string, Value>)
    requires schema.Obj? && IsObjectShell(schema)
    ensures ObjectKeywords(schema, v) <==> CountFits(schema, |v|) && NamesFit(schema, v)
  {
    var required := schema.fields["required"].items;
    var listed := schema.fields["properties"].fields;
    CountBounds(schema, "minProperties", "maxProperties", MAXIMUM_SCHEMA_PROPERTIES_PER_OBJECT, |v|);
    DistinctNames(required);
    assert |v| == |v.Keys| && |listed| == |listed.Keys|;
    if Names(required) <= v.Keys {
      SubsetIsSmaller(Names(required), v.Keys);
    }
    if v.Keys <= listed.Keys {
      SubsetIsSmaller(v.Keys, listed.Keys);
    }
    assert Names(required) <= v.Keys <==> forall e :: e in required ==> e.s in v;
  }

  lemma ObjectMeaning(schema: Value, common: Common, properties: map<string, Node>, v: map<string, Value>)
    requires schema.Obj? && IsObjectShell(schema)
    requires properties.Keys == schema.fields["properties"].fields.Keys
    requires forall k :: k in v && k in properties ==>
      (MatchesNode(properties[k], v[k]) <==> Satisfies(schema.fields["properties"].fields[k], v[k]))
    ensures MatchesShape(ObjectShell(schema, common, properties), Obj(v)) <==>
            ObjectKeywords(schema, v) &&
            forall k :: k in properties && k in v ==> Satisfies(schema.fields["properties"].fields[k], v[k])
  {
    hide MatchesShape, MatchesNode, Satisfies, ObjectKeywords, CountFits, NamesFit;
    ObjectMatches(schema, common, properties, v);
    ObjectCounts(schema, v);
  }

  // ---------------------------------------------------------------------------
  // Compilation preserves meaning
  // ---------------------------------------------------------------------------

  /** The text of the type keyword says what the compiler made of it. */
  lemma TypeIsTheText(schema: Value)
    requires schema.Obj?
    ensures !TypeOf(schema).UnknownType? ==> "type" in schema.fields && schema.fields["type"].Str?
    ensures "type" in schema.fields && schema.fields["type"].Str? ==>
            var text := schema.fields["type"].s;
            && (TypeOf(schema).StringType? <==> text == "string")
            && (TypeOf(schema).NumberType? <==> text == "integer" || text == "number")
            && (TypeOf(schema).BooleanType? <==> text == "boolean")
            && (TypeOf(schema).NullType? <==> text == "null")
            && (TypeOf(schema).ArrayType? <==> text == "array")
            && (TypeOf(schema).ObjectType? <==> text == "object")
  {
  }

  lemma {:induction false} ArrayPreservesMeaning(schema: Value, common: Common, v: seq<Value>)
    requires schema.Obj? && TypeOf(schema).ArrayType? && CompileAs(schema, common).Some?
    ensures MatchesShape(CompileAs(schema, common).value, Arr(v)) <==>
            ArrayKeywords(schema, v) && forall e :: e in v ==> Satisfies(schema.fields["items"], e)
    decreases schema, 0
  {
    hide TypeOf, MatchesShape, MatchesNode, Satisfies, ArrayKeywords;
    var items := Compile(schema.fields["items"]).value;
    forall e | e in v
      ensures MatchesNode(items, e) <==> Satisfies(schema.fields["items"], e)
    {
      CompilationPreservesMeaning(schema.fields["items"], e);
    }
    ArrayMeaning(schema, common, items, v);
  }

  lemma {:induction false} ObjectPreservesMeaning(schema: Value, common: Common, v: map<string, Value>)
    requires schema.Obj? && TypeOf(schema).ObjectType? && CompileAs(schema, common).Some?
    ensures MatchesShape(CompileAs(schema, common).value, Obj(v)) <==>
            ObjectKeywords(schema, v) &&
            forall k :: k in schema.fields["properties"].fields && k in v ==>
              Satisfies(schema.fields["properties"].fields[k], v[k])
    decreases schema, 0
  {
    hide TypeOf, MatchesShape, MatchesNode, Satisfies, ObjectKeywords;
    var children := schema.fields["properties"].fields;
    var properties := map k | k in children :: Compile(children[k]).value;
    forall k | k in v && k in properties
      ensures MatchesNode(properties[k], v[k]) <==> Satisfies(children[k], v[k])
    {
      assert Compile(children[k]).Some?;
      CompilationPreservesMeaning(children[k], v[k]);
    }
    ObjectMeaning(schema, common, properties, v);
  }

  /** The matcher on a node, its own `const` and `enum` left aside, accepts exactly the
      values the other keywords accept. */
  lemma {:induction false} ShapePreservesMeaning(schema: Value, common: Common, v: Value)
    requires schema.Obj? && CompileAs(schema, common).Some?
    ensures MatchesShape(CompileAs(schema, common).value, v) <==> HasShape(schema, v)
    decreases schema, 1
  {
    hide Satisfies, StringKeywords, ArrayKeywords, ObjectKeywords, IsCoherent;
    TypeIsTheText(schema);
    match TypeOf(schema)
    case StringType =>
      if v.Str? {
        StringMeaning(schema, common, v.s);
      }
    case ArrayType =>
      if v.Arr? {
        ArrayPreservesMeaning(schema, common, v.items);
      }
    case ObjectType =>
      if v.Obj? {
        ObjectPreservesMeaning(schema, common, v.fields);
      }
    case _ =>
  }

  /** Whenever a schema compiles, the matcher on the compiled node accepts exactly the
      values the schema's keywords accept. */
  lemma {:induction false} CompilationPreservesMeaning(schema: Value, v: Value)
    requires Compile(schema).Some?
    ensures MatchesNode(Compile(schema).value, v) <==> Satisfies(schema, v)
    decreases schema, 2
  {
    hide TypeOf, CompileCommon, MatchesCommon, ValueKeywords, MatchesShape, HasShape, IsCoherent;
    var common := CompileCommon(schema).value;
    CommonMeaning(schema, v);
    ShapePreservesMeaning(schema, common, v);
    CompiledCommonIs(schema, common);
  }

  lemma CompiledCommonIs(schema: Value, common: Common)
    requires schema.Obj? && CompileAs(schema, common).Some?
    ensures CompileAs(schema, common).value.common == common
  {
  }
}
