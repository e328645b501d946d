/** The schemas of the tool-schema subset, keyword by keyword, and the proof that exactly
    these compile. */
module SchemaGrammar {
  import opened Wrappers
  import opened Json
  import opened Patterns
  import opened PatternGrammar
  import opened Schema
  import opened SchemaMeaning

  // ---------------------------------------------------------------------------
  // The grammar
  // ---------------------------------------------------------------------------

  /** The keyword, if present, is a whole number from zero to the maximum. */
  predicate IsCountKeyword(schema: Value, key: string, maximum: nat)
    requires schema.Obj?
  {
    key in schema.fields ==>
      schema.fields[key].Num? && IsSafeInteger(schema.fields[key].n) && 0.0 <= schema.fields[key].n <= maximum as real
  }

  predicate IsIntegerKeyword(schema: Value, key: string)
    requires schema.Obj?
  {
    key in schema.fields ==> schema.fields[key].Num? && IsSafeInteger(schema.fields[key].n)
  }

  /** Both bounds, where present, admit the count. */
  predicate Allows(schema: Value, low: string, high: string, n: nat)
    requires schema.Obj?
  {
    AtLeast(schema, low, n as real) && AtMost(schema, high, n as real)
  }

  /** `enum` lists one to 64 different values, `const` among them if it is there too. */
  predicate IsListing(schema: Value)
    requires schema.Obj?
  {
    "enum" in schema.fields ==>
      && schema.fields["enum"].Arr?
      && var items := schema.fields["enum"].items;
      && 1 <= |items| <= 64
      && (forall i, j :: 0 <= i < j < |items| ==> items[i] != items[j])
      && ("const" in schema.fields ==> schema.fields["const"] in items)
  }

  /** And each value it lists has the shape the other keywords ask for. */
  ghost predicate ListsItsShape(schema: Value)
    requires schema.Obj?
  {
    && ("const" in schema.fields ==> HasShape(schema, schema.fields["const"]))
    && ("enum" in schema.fields && schema.fields["enum"].Arr? ==>
          forall e :: e in schema.fields["enum"].items ==> HasShape(schema, e))
  }

  /** A string schema, which some string fits. */
  ghost predicate IsStringSchema(schema: Value)
    requires schema.Obj?
  {
    && schema.fields.Keys <= {"type", "const", "enum", "minLength", "maxLength", "pattern"}
    && IsCountKeyword(schema, "minLength", 65536) && IsCountKeyword(schema, "maxLength", 65536)
    && ("pattern" in schema.fields ==> schema.fields["pattern"].Str? && IsPatternText(schema.fields["pattern"].s))
    && exists s :: StringKeywords(schema, s)
  }

  ghost predicate IsNumberSchema(schema: Value)
    requires schema.Obj?
  {
    && schema.fields.Keys <= {"type", "const", "enum", "minimum", "maximum"}
    && IsIntegerKeyword(schema, "minimum") && IsIntegerKeyword(schema, "maximum")
    && exists n :: AtLeast(schema, "minimum", n) && AtMost(schema, "maximum", n)
  }

  /** An array schema, its items aside, which some number of items fits. */
  ghost predicate IsArraySchema(schema: Value)
    requires schema.Obj?
  {
    && schema.fields.Keys <= {"type", "const", "enum", "items", "minItems", "maxItems", "uniqueItems"}
    && "items" in schema.fields
    && ("uniqueItems" in schema.fields ==> schema.fields["uniqueItems"].Bool?)
    && IsCountKeyword(schema, "minItems", 1024) && IsCountKeyword(schema, "maxItems", 1024)
    && exists n: nat :: n <= 1024 && Allows(schema, "minItems", "maxItems", n)
  }

  /** The required names: different ones, safe ones, and all among the properties. */
  predicate AreRequired(required: seq<Value>, properties: map<string, Value>) {
    && (forall e :: e in required ==> e.Str? && e.s != "__proto__" && e.s in properties)
    && forall i, j :: 0 <= i < j < |required| ==> required[i] != required[j]
  }

  /** A closed object schema, its properties aside, which some number of properties fits. */
  ghost predicate IsObjectSchema(schema: Value)
    requires schema.Obj?
  {
    && schema.fields.Keys <= {"type", "const", "enum", "additionalProperties", "required", "properties", "minProperties",
                              "maxProperties"}
    && "additionalProperties" in schema.fields && schema.fields["additionalProperties"] == Bool(false)
    && "properties" in schema.fields && IsExactDataRecord(schema.fields["properties"])
    && "required" in schema.fields && schema.fields["required"].Arr?
    && var required, properties := schema.fields["required"].items, schema.fields["properties"].fields;
    && |properties| <= 128 && AreRequired(required, properties)
    && IsCountKeyword(schema, "minProperties", 128) && IsCountKeyword(schema, "maxProperties", 128)
    && exists n: nat :: |required| <= n <= |properties| && Allows(schema, "minProperties", "maxProperties", n)
  }

  /** A schema of the subset, whatever its size. */
  ghost predicate IsSchema(schema: Value) {
    && IsExactDataRecord(schema) && "type" in schema.fields && schema.fields["type"].Str?
    && IsListing(schema) && ListsItsShape(schema)
    && var text := schema.fields["type"].s;
       || (text == "string" && IsStringSchema(schema))
       || ((text == "integer" || text == "number") && IsNumberSchema(schema))
       || ((text == "boolean" || text == "null") && schema.fields.Keys <= {"type", "const", "enum"})
       || (text == "array" && IsArraySchema(schema) && IsSchema(schema.fields["items"]))
       || (text == "object" && IsObjectSchema(schema) &&
           forall k :: k in schema.fields["properties"].fields ==> IsSchema(schema.fields["properties"].fields[k]))
  }

  // ---------------------------------------------------------------------------
  // One type at a time
  // ---------------------------------------------------------------------------

  lemma CountIsValid(schema: Value, key: string, maximum: nat)
    requires schema.Obj?
    ensures IsCountKeyword(schema, key, maximum) <==> !OptionalCount(schema, key, maximum).Invalid?
  {
  }

  lemma ListingIsCommon(schema: Value)
    requires schema.Obj?
    ensures IsListing(schema) <==> CompileCommon(schema).Some?
  {
    if "enum" in schema.fields && schema.fields["enum"].Arr? {
      ElementsAreFewer(schema.fields["enum"].items);
    }
  }

  /** The lengths fit exactly when some string does. */
  lemma StringExactly(schema: Value, common: Common)
    requires schema.Obj?
    ensures CompileString(schema, common).Some? <==> IsStringSchema(schema)
  {
    hide CompilePattern, MatchesPattern, RegexAccepts, StringKeywords;
    CountIsValid(schema, "minLength", 65536);
    CountIsValid(schema, "maxLength", 65536);
    if "pattern" in schema.fields && schema.fields["pattern"].Str? {
      CompilesExactly(schema.fields["pattern"].s);
    }
    if CompileString(schema, common).Some? {
      var s := StringWitness(schema, common);
      assert StringKeywords(schema, s);
    }
    forall s | IsStringSchema(schema) && StringKeywords(schema, s) ensures CompileString(schema, common).Some? {
      StringFits(schema, common, s);
    }
  }

  /** A string of the least length the node accepts. */
  lemma StringWitness(schema: Value, common: Common) returns (s: string)
    requires schema.Obj? && CompileString(schema, common).Some?
    ensures StringKeywords(schema, s)
  {
    hide StringKeywords, RegexAccepts;
    var node := CompileString(schema, common).value;
    if node.pattern.Some? {
      s := PatternWitness(schema.fields["pattern"].s, node.minimumLength);
    } else {
      s := seq(node.minimumLength, _ => 'a');
    }
    StringMeaning(schema, common, s);
  }

  lemma StringFits(schema: Value, common: Common, s: string)
    requires schema.Obj? && IsStringSchema(schema) && StringKeywords(schema, s)
    ensures CompileString(schema, common).Some?
  {
    CountIsValid(schema, "minLength", 65536);
    CountIsValid(schema, "maxLength", 65536);
    CountBounds(schema, "minLength", "maxLength", 65536, |s|);
    hide CompilePattern, MatchesPattern, RegexAccepts;
    if "pattern" in schema.fields {
      var text := schema.fields["pattern"].s;
      CompilesExactly(text);
      CompiledPatternIsExact(text, s);
      MatchLengthIsBounded(text, s);
    }
  }

  lemma NumberExactly(schema: Value, common: Common)
    requires schema.Obj?
    ensures CompileNumber(schema, common).Some? <==> IsNumberSchema(schema)
  {
    if CompileNumber(schema, common).Some? {
      var minimum, maximum := Bound(schema, "minimum"), Bound(schema, "maximum");
      var n := if minimum.Some? then minimum.value else if maximum.Some? then maximum.value else 0.0;
      assert AtLeast(schema, "minimum", n) && AtMost(schema, "maximum", n);
    }
  }

  /** A count between two numbers is allowed exactly when the keywords and the numbers
      leave room for one. */
  lemma RoomExactly(schema: Value, low: string, high: string, maximum: nat, least: nat, most: nat)
    requires schema.Obj? && IsCountKeyword(schema, low, maximum) && IsCountKeyword(schema, high, maximum)
    ensures (exists n: nat :: least <= n <= most && Allows(schema, low, high, n)) <==>
            Max(OptionalCount(schema, low, maximum).Or(0), least) <= Min(OptionalCount(schema, high, maximum).Or(most), most)
  {
    var from := Max(OptionalCount(schema, low, maximum).Or(0), least);
    CountIsValid(schema, low, maximum);
    CountIsValid(schema, high, maximum);
    forall n: nat
      ensures AtLeast(schema, low, n as real) <==> OptionalCount(schema, low, maximum).Or(0) <= n
      ensures AtMost(schema, high, n as real) <==> OptionalCount(schema, high, maximum).Or(n) >= n
    {
      CountBounds(schema, low, high, maximum, n);
    }
    if from <= Min(OptionalCount(schema, high, maximum).Or(most), most) {
      assert Allows(schema, low, high, from);
    }
  }

  lemma ArrayExactly(schema: Value)
    requires schema.Obj?
    ensures IsArrayShell(schema) <==> IsArraySchema(schema)
  {
    hide OptionalCount, Allows, IsCountKeyword;
    CountIsValid(schema, "minItems", 1024);
    CountIsValid(schema, "maxItems", 1024);
    if IsCountKeyword(schema, "minItems", 1024) && IsCountKeyword(schema, "maxItems", 1024) {
      RoomExactly(schema, "minItems", "maxItems", 1024, 0, 1024);
      SmallCounts(schema, "maxItems", 1024);
    }
  }

  lemma SmallCounts(schema: Value, key: string, maximum: nat)
    requires schema.Obj?
    ensures OptionalCount(schema, key, maximum).Given? ==> OptionalCount(schema, key, maximum).count <= maximum
  {
  }

  lemma RequiredExactly(required: seq<Value>, properties: map<string, Value>)
    ensures AreRequired(required, properties) <==>
              && (forall e :: e in required ==> e.Str? && !IsUnsafeObjectKey(e.s)) && IsDistinct(required)
              && (forall e :: e in required ==> e.Str? && e.s in properties)
  {
    ElementsAreFewer(required);
  }

  lemma ObjectExactly(schema: Value)
    requires schema.Obj?
    ensures IsObjectShell(schema) <==> IsObjectSchema(schema)
  {
    hide OptionalCount, Allows, IsCountKeyword, AreRequired, IsDistinct;
    CountIsValid(schema, "minProperties", 128);
    CountIsValid(schema, "maxProperties", 128);
    if && "required" in schema.fields && schema.fields["required"].Arr?
       && "properties" in schema.fields && IsExactDataRecord(schema.fields["properties"])
    {
      var required, properties := schema.fields["required"].items, schema.fields["properties"].fields;
      RequiredExactly(required, properties);
      if IsCountKeyword(schema, "minProperties", 128) && IsCountKeyword(schema, "maxProperties", 128) {
        RoomExactly(schema, "minProperties", "maxProperties", 128, |required|, |properties|);
      }
    }
  }

  // ---------------------------------------------------------------------------
  // Every schema
  // ---------------------------------------------------------------------------

  lemma CoherentExactly(schema: Value, common: Common)
    requires schema.Obj? && CompileAs(schema, common).Some?
    ensures IsCoherent(CompileAs(schema, common).value, schema) <==> ListsItsShape(schema)
  {
    hide CompileAs, MatchesShape, HasShape;
    var node := CompileAs(schema, common).value;
    forall v ensures MatchesShape(node, v) <==> HasShape(schema, v) {
      ShapePreservesMeaning(schema, common, v);
    }
  }

  /** A schema compiles exactly when it is of the subset. */
  lemma {:induction false} SchemasCompileExactly(schema: Value)
    ensures Compile(schema).Some? <==> IsSchema(schema)
    decreases schema
  {
    if IsExactDataRecord(schema) && "type" in schema.fields && schema.fields["type"].Str? {
      TypeIsTheText(schema);
      ListingIsCommon(schema);
      if CompileCommon(schema).Some? {
        var common := CompileCommon(schema).value;
        StringExactly(schema, common);
        NumberExactly(schema, common);
        ArrayExactly(schema);
        ObjectExactly(schema);
        if IsArraySchema(schema) {
          SchemasCompileExactly(schema.fields["items"]);
        }
        if IsObjectSchema(schema) {
          forall k | k in schema.fields["properties"].fields
            ensures Compile(schema.fields["properties"].fields[k]).Some? <==> IsSchema(schema.fields["properties"].fields[k])
          {
            SchemasCompileExactly(schema.fields["properties"].fields[k]);
          }
        }
        if CompileAs(schema, common).Some? {
          CoherentExactly(schema, common);
        }
      }
    } else {
      hide CompileCommon, CompileAs;
    }
  }
}
