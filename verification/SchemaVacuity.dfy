/** Which compiled schemas some value matches at all.  A schema accepts finitely many
    values, and its bound checks make it satisfiable except where `uniqueItems` asks for
    more distinct items than the item schema accepts. */
module SchemaVacuity {
  import opened Wrappers
  import opened Json
  import opened Patterns
  import opened Schema
  import opened SchemaMeaning

  // ---------------------------------------------------------------------------
  // The finitely many values a node accepts
  // ---------------------------------------------------------------------------

  ghost function Words(length: nat): set<string> {
    if length == 0 then {""}
    else set w, c: char | w in Words(length - 1) :: w + [c]
  }

  ghost function Lists(from: set<Value>, length: nat): set<seq<Value>> {
    if length == 0 then {[]}
    else set l, v | l in Lists(from, length - 1) && v in from :: l + [v]
  }

  /** Every partial choice of one value per key. */
  ghost function Choices(from: map<string, set<Value>>): set<map<string, Value>>
    decreases |from|
  {
    if from == map[] then {map[]}
    else
      var k := PickKey(from.Keys);
      var rest := Choices(from - {k});
      rest + set m, v | m in rest && v in from[k] :: m[k := v]
  }

  function Integer(i: int): Value {
    Num(i as real)
  }

  ghost function SafeIntegers(): set<Value> {
    set i | -MAXIMUM_SAFE_INTEGER <= i <= MAXIMUM_SAFE_INTEGER :: Integer(i)
  }

  /** Every value the node accepts, each of them once. */
  ghost function Language(node: Node): set<Value> {
    set v | v in Candidates(node) && MatchesNode(node, v)
  }

  ghost function Candidates(node: Node): set<Value> {
    match node
    case StringNode(_, _, most, _) => set n, w | 0 <= n <= most && w in Words(n) :: Str(w)
    case NumberNode(_, _, _) => SafeIntegers()
    case BooleanNode(_) => {Bool(false), Bool(true)}
    case NullNode(_) => {Null}
    case ArrayNode(_, items, _, most, _) =>
      set n, l | 0 <= n <= most && l in Lists(Candidates(items), n) :: Arr(l)
    case ObjectNode(_, properties, _, _, _) =>
      set m | m in Choices(map k | k in properties :: Candidates(properties[k])) :: Obj(m)
  }

  lemma {:induction false} WordsHoldAll(w: string)
    ensures w in Words(|w|)
  {
    if w != "" {
      WordsHoldAll(w[..|w| - 1]);
      assert w == w[..|w| - 1] + [w[|w| - 1]];
    }
  }

  lemma {:induction false} ListsHoldAll(from: set<Value>, l: seq<Value>)
    requires forall v :: v in l ==> v in from
    ensures l in Lists(from, |l|)
  {
    if l != [] {
      ListsHoldAll(from, l[..|l| - 1]);
      assert l == l[..|l| - 1] + [l[|l| - 1]];
    }
  }

  lemma {:induction false} ChoicesHoldAll(from: map<string, set<Value>>, m: map<string, Value>)
    requires m.Keys <= from.Keys && forall k :: k in m ==> m[k] in from[k]
    ensures m in Choices(from)
    decreases |from|
  {
    if from == map[] {
      assert m == map[];
    } else {
      var k := PickKey(from.Keys);
      ChoicesHoldAll(from - {k}, m - {k});
      if k in m {
        assert m == (m - {k})[k := m[k]];
      } else {
        assert m == m - {k};
      }
    }
  }

  lemma SafeIntegersHoldAll(n: real)
    requires IsSafeInteger(n)
    ensures Num(n) in SafeIntegers()
  {
    assert Integer(n.Floor) == Num(n);
  }

  lemma {:induction false} CandidatesHoldAll(node: Node, v: Value)
    requires MatchesShape(node, v)
    ensures v in Candidates(node)
    decreases node
  {
    match node
    case StringNode(_, _, _, _) => WordsHoldAll(v.s);
    case NumberNode(_, _, _) => SafeIntegersHoldAll(v.n);
    case BooleanNode(_) =>
    case NullNode(_) =>
    case ArrayNode(_, items, _, _, _) =>
      forall e | e in v.items ensures e in Candidates(items) {
        CandidatesHoldAll(items, e);
      }
      ListsHoldAll(Candidates(items), v.items);
    case ObjectNode(_, properties, _, _, _) =>
      forall k | k in v.fields ensures v.fields[k] in Candidates(properties[k]) {
        assert k in properties;
        CandidatesHoldAll(properties[k], v.fields[k]);
      }
      ChoicesHoldAll(map k | k in properties :: Candidates(properties[k]), v.fields);
  }

  /** The finite language is exactly what the matcher accepts. */
  lemma LanguageIsExact(node: Node, v: Value)
    ensures v in Language(node) <==> MatchesNode(node, v)
  {
    if MatchesNode(node, v) {
      CandidatesHoldAll(node, v);
    }
  }

  // ---------------------------------------------------------------------------
  // What compilation establishes of a node
  // ---------------------------------------------------------------------------

  predicate IsSafeBound(bound: Option<real>) {
    bound.Some? ==> IsSafeInteger(bound.value)
  }

  ghost predicate IsStringShape(node: Node)
    requires node.StringNode?
  {
    && node.minimumLength <= node.maximumLength
    && (node.pattern.Some? ==>
          && node.pattern.value.minimumCodePoints <= node.minimumLength
          && node.maximumLength <= node.pattern.value.maximumCodePoints
          && exists text :: CompilePattern(text) == node.pattern)
  }

  /** `const` and `enum` members match the shape, `enum` has one, and `const` is in it. */
  predicate IsCoherentNode(node: Node) {
    && (node.common.constant.Some? ==> MatchesShape(node, node.common.constant.value))
    && (node.common.enumeration.Some? ==>
          && node.common.enumeration.value != {}
          && (forall e :: e in node.common.enumeration.value ==> MatchesShape(node, e))
          && (node.common.constant.Some? ==> node.common.constant.value in node.common.enumeration.value))
  }

  ghost predicate IsWellFormed(node: Node) {
    && IsCoherentNode(node)
    && match node
       case StringNode(_, _, _, _) => IsStringShape(node)
       case NumberNode(_, minimum, maximum) =>
         && IsSafeBound(minimum) && IsSafeBound(maximum)
         && (minimum.Some? && maximum.Some? ==> minimum.value <= maximum.value)
       case BooleanNode(_) => true
       case NullNode(_) => true
       case ArrayNode(_, items, minimumItems, maximumItems, _) =>
         minimumItems <= maximumItems <= MAXIMUM_ARGUMENT_ARRAY_ITEMS_PER_ARRAY && IsWellFormed(items)
       case ObjectNode(_, properties, required, minimumProperties, maximumProperties) =>
         && required <= properties.Keys
         && |required| <= minimumProperties <= maximumProperties <= |properties|
         && (forall k :: k in properties ==> !IsUnsafeObjectKey(k))
         && forall k :: k in properties ==> IsWellFormed(properties[k])
  }

  lemma CoherentSchemaCoherentNode(schema: Value, node: Node)
    requires schema.Obj? && CompileCommon(schema) == Some(node.common) && IsCoherent(node, schema)
    ensures IsCoherentNode(node)
  {
    hide MatchesShape;
    if "enum" in schema.fields {
      var items := schema.fields["enum"].items;
      assert items[0] in Elements(items);
    }
  }

  lemma CompiledStringShape(schema: Value, common: Common)
    requires schema.Obj? && CompileString(schema, common).Some?
    ensures IsStringShape(CompileString(schema, common).value)
  {
    hide CompilePattern;
    if "pattern" in schema.fields {
      assert CompilePattern(schema.fields["pattern"].s) == CompileString(schema, common).value.pattern;
    }
  }

  lemma CompiledObjectShape(schema: Value, common: Common, properties: map<string, Node>)
    requires schema.Obj? && IsObjectShell(schema)
    requires properties.Keys == schema.fields["properties"].fields.Keys
    ensures var node := ObjectShell(schema, common, properties);
            && node.required <= properties.Keys
            && |node.required| <= node.minimumProperties <= node.maximumProperties <= |properties|
            && forall k :: k in properties ==> !IsUnsafeObjectKey(k)
  {
    DistinctNames(schema.fields["required"].items);
    assert |properties| == |properties.Keys| == |schema.fields["properties"].fields|;
  }

  lemma {:induction false} CompiledIsWellFormed(schema: Value)
    requires Compile(schema).Some?
    ensures IsWellFormed(Compile(schema).value)
    decreases schema
  {
    hide MatchesShape, IsStringShape;
    var node := Compile(schema).value;
    var common := CompileCommon(schema).value;
    assert node.common == common;
    CoherentSchemaCoherentNode(schema, node);
    match TypeOf(schema)
    case StringType => CompiledStringShape(schema, common);
    case NumberType =>
    case BooleanType =>
    case NullType =>
    case ArrayType => CompiledIsWellFormed(schema.fields["items"]);
    case ObjectType =>
      var children := schema.fields["properties"].fields;
      forall k | k in children ensures IsWellFormed(node.properties[k]) {
        assert Compile(children[k]).Some?;
        CompiledIsWellFormed(children[k]);
      }
      CompiledObjectShape(schema, common, node.properties);
    case UnknownType =>
  }

  // ---------------------------------------------------------------------------
  // The condition
  // ---------------------------------------------------------------------------

  predicate IsPinned(node: Node) {
    node.common.constant.Some? || node.common.enumeration.Some?
  }

  /** A pinned node holds its own match.  An array that must hold items needs a fillable
      item schema, and one that asks for distinct items needs as many accepted values. */
  ghost predicate IsFillable(node: Node)
    decreases node, 1
  {
    IsPinned(node) ||
    match node
    case ArrayNode(_, items, minimumItems, _, uniqueItems) =>
      minimumItems == 0 ||
      (IsFillable(items) && (uniqueItems ==> |Language(items)| >= minimumItems))
    case ObjectNode(_, properties, required, minimumProperties, _) =>
      required <= FillableKeys(node) && |FillableKeys(node)| >= minimumProperties
    case _ => true
  }

  ghost function FillableKeys(node: Node): set<string>
    requires node.ObjectNode?
    decreases node, 0
  {
    set k | k in node.properties && IsFillable(node.properties[k])
  }

  /** No array asks for two or more distinct items. */
  predicate HasNoLargeUniqueArray(node: Node) {
    match node
    case ArrayNode(_, items, minimumItems, _, uniqueItems) =>
      (uniqueItems ==> minimumItems <= 1) && HasNoLargeUniqueArray(items)
    case ObjectNode(_, properties, _, _, _) =>
      forall k :: k in properties ==> HasNoLargeUniqueArray(properties[k])
    case _ => true
  }

  // ---------------------------------------------------------------------------
  // Witnesses
  // ---------------------------------------------------------------------------

  lemma StringWitness(node: Node) returns (v: Value)
    requires node.StringNode? && IsStringShape(node)
    ensures MatchesShape(node, v)
  {
    hide CompilePattern, MatchesPattern;
    if node.pattern.Some? {
      var text :| CompilePattern(text) == node.pattern;
      var s := PatternWitness(text, node.minimumLength);
      v := Str(s);
    } else {
      v := Str(seq(node.minimumLength, _ => 'a'));
    }
  }

  lemma NumberWitness(node: Node) returns (v: Value)
    requires node.NumberNode? && IsWellFormed(node)
    ensures MatchesShape(node, v)
  {
    v := Num(if node.minimum.Some? then node.minimum.value
             else if node.maximum.Some? then node.maximum.value else 0.0);
  }

  lemma {:induction false} ListOf<T>(from: set<T>, n: nat) returns (s: seq<T>)
    requires n <= |from|
    ensures |s| == n && Elements(s) <= from && |Elements(s)| == n
    ensures forall e :: e in s ==> e in from
    decreases n
  {
    s := [];
    if n > 0 {
      var first :| first in from;
      var rest := ListOf(from - {first}, n - 1);
      s := [first] + rest;
      assert Elements(s) == {first} + Elements(rest);
    }
  }

  lemma RepeatedElements<T>(v: T, n: nat)
    requires n == 1
    ensures |Elements(seq(n, _ => v))| == n
  {
    assert seq(n, _ => v) == [v];
    assert Elements([v]) == {v};
  }

  /** A set of at least `n` members between `low` and `high`. */
  lemma SetBetween<T>(low: set<T>, high: set<T>, n: nat) returns (s: set<T>)
    requires low <= high && |low| <= n <= |high|
    ensures low <= s <= high && |s| == n
    decreases n - |low|
  {
    if |low| == n {
      s := low;
    } else {
      SubsetIsSmaller(low, high);
      assert low != high;
      var k :| k in high && k !in low;
      s := SetBetween(low + {k}, high, n);
    }
  }

  lemma ArrayWitness(node: Node, item: Value) returns (v: Value)
    requires node.ArrayNode? && node.minimumItems <= node.maximumItems
    requires node.minimumItems > 0 ==> MatchesNode(node.items, item)
    requires node.uniqueItems && node.minimumItems > 1 ==> |Language(node.items)| >= node.minimumItems
    ensures MatchesShape(node, v)
  {
    hide Language, MatchesNode;
    var n := node.minimumItems;
    var list: seq<Value>;
    if node.uniqueItems && n > 1 {
      list := ListOf(Language(node.items), n);
      forall e | e in list ensures MatchesNode(node.items, e) {
        LanguageIsExact(node.items, e);
      }
    } else {
      list := seq(n, _ => item);
      if n == 1 { RepeatedElements(item, n); }
      if n == 0 { assert Elements(list) == {}; }
    }
    ArrayOfMatches(node, list);
    v := Arr(list);
  }

  lemma ArrayOfMatches(node: Node, list: seq<Value>)
    requires node.ArrayNode? && node.minimumItems <= |list| <= node.maximumItems
    requires forall e :: e in list ==> MatchesNode(node.items, e)
    requires node.uniqueItems ==> |Elements(list)| == |list|
    ensures MatchesShape(node, Arr(list))
  {
  }

  lemma ObjectOfMatches(node: Node, fields: map<string, Value>)
    requires node.ObjectNode? && node.minimumProperties <= |fields| <= node.maximumProperties
    requires node.required <= fields.Keys <= node.properties.Keys
    requires forall k :: k in fields ==> !IsUnsafeObjectKey(k) && MatchesNode(node.properties[k], fields[k])
    ensures MatchesShape(node, Obj(fields))
  {
  }

  ghost predicate IsSatisfiable(node: Node) {
    exists v :: MatchesNode(node, v)
  }

  lemma PinnedIsSatisfiable(node: Node)
    requires IsCoherentNode(node) && IsPinned(node)
    ensures IsSatisfiable(node)
  {
    if node.common.constant.Some? {
      assert MatchesNode(node, node.common.constant.value);
    } else {
      var e :| e in node.common.enumeration.value;
      assert MatchesNode(node, e);
    }
  }

  lemma ShapeIsSatisfiable(node: Node, v: Value)
    requires !IsPinned(node) && MatchesShape(node, v)
    ensures IsSatisfiable(node)
  {
    assert MatchesNode(node, v);
  }

  lemma FillableObject(node: Node)
    requires IsWellFormed(node) && node.ObjectNode? && !IsPinned(node) && IsFillable(node)
    requires forall k :: k in node.properties && IsFillable(node.properties[k]) ==> IsSatisfiable(node.properties[k])
    ensures IsSatisfiable(node)
  {
    hide MatchesNode, MatchesShape, IsCoherentNode;
    var keys := SetBetween(node.required, FillableKeys(node), node.minimumProperties);
    hide IsFillable, IsWellFormed;
    assert forall k :: k in keys ==> IsSatisfiable(node.properties[k]);
    var fields := map k | k in keys :: Chosen(node.properties[k]);
    assert fields.Keys == keys && |fields| == |keys|;
    ObjectOfMatches(node, fields);
    ShapeIsSatisfiable(node, Obj(fields));
  }

  ghost function Chosen(node: Node): (v: Value)
    requires IsSatisfiable(node)
    ensures MatchesNode(node, v)
  {
    var v :| MatchesNode(node, v); v
  }

  lemma {:induction false} FillableIsSatisfiable(node: Node)
    requires IsWellFormed(node) && IsFillable(node)
    ensures IsSatisfiable(node)
    decreases node
  {
    hide MatchesShape, MatchesNode, IsSatisfiable, IsCoherentNode, Language;
    if IsPinned(node) {
      PinnedIsSatisfiable(node);
    } else {
      match node
      case StringNode(_, _, _, _) =>
        var v := StringWitness(node);
        ShapeIsSatisfiable(node, v);
      case NumberNode(_, _, _) =>
        var v := NumberWitness(node);
        ShapeIsSatisfiable(node, v);
      case BooleanNode(_) => BooleanWitness(node);
      case NullNode(_) => NullWitness(node);
      case ArrayNode(_, items, minimumItems, _, _) =>
        var item := Null;
        if minimumItems > 0 {
          FillableIsSatisfiable(items);
          item := Chosen(items);
        }
        var v := ArrayWitness(node, item);
        ShapeIsSatisfiable(node, v);
      case ObjectNode(_, properties, _, _, _) =>
        forall k | k in properties && IsFillable(properties[k]) ensures IsSatisfiable(properties[k]) {
          FillableIsSatisfiable(properties[k]);
        }
        FillableObject(node);
    }
  }

  lemma BooleanWitness(node: Node)
    requires node.BooleanNode? && !IsPinned(node)
    ensures IsSatisfiable(node)
  {
    assert MatchesNode(node, Bool(true));
  }

  lemma NullWitness(node: Node)
    requires node.NullNode? && !IsPinned(node)
    ensures IsSatisfiable(node)
  {
    assert MatchesNode(node, Null);
  }

  // ---------------------------------------------------------------------------
  // The other direction
  // ---------------------------------------------------------------------------

  lemma {:induction false} MatchedIsFillable(node: Node, v: Value)
    requires MatchesNode(node, v)
    ensures IsFillable(node)
    decreases node
  {
    if !IsPinned(node) {
      match node
      case ArrayNode(_, items, minimumItems, _, uniqueItems) =>
        if minimumItems > 0 {
          assert v.items[0] in v.items;
          MatchedIsFillable(items, v.items[0]);
          if uniqueItems {
            UniqueArrayNeedsLanguage(node, v.items);
          }
        }
      case ObjectNode(_, properties, required, minimumProperties, _) =>
        forall k | k in v.fields ensures k in properties && IsFillable(properties[k]) {
          assert MatchesNode(properties[k], v.fields[k]);
          MatchedIsFillable(properties[k], v.fields[k]);
        }
        assert required <= v.fields.Keys <= FillableKeys(node) && |v.fields| == |v.fields.Keys|;
        SubsetIsSmaller(v.fields.Keys, FillableKeys(node));
      case _ =>
    }
  }

  lemma UniqueArrayNeedsLanguage(node: Node, list: seq<Value>)
    requires node.ArrayNode? && node.uniqueItems && MatchesShape(node, Arr(list))
    ensures |Language(node.items)| >= node.minimumItems
  {
    forall e | e in Elements(list) ensures e in Language(node.items) {
      assert MatchesNode(node.items, e);
      LanguageIsExact(node.items, e);
    }
    SubsetIsSmaller(Elements(list), Language(node.items));
  }

  // ---------------------------------------------------------------------------
  // Main results
  // ---------------------------------------------------------------------------

  /** A schema that compiles is matched by some value exactly when it is fillable. */
  lemma SatisfiableExactly(schema: Value)
    requires Compile(schema).Some?
    ensures (exists v :: Satisfies(schema, v)) <==> IsFillable(Compile(schema).value)
  {
    hide Satisfies, Compile, IsFillable, IsWellFormed, MatchesNode;
    var node := Compile(schema).value;
    CompiledIsWellFormed(schema);
    if IsFillable(node) {
      FillableIsSatisfiable(node);
      CompilationPreservesMeaning(schema, Chosen(node));
    }
    forall v | Satisfies(schema, v) ensures IsFillable(node) {
      CompilationPreservesMeaning(schema, v);
      MatchedIsFillable(node, v);
    }
  }

  lemma {:induction false} NoLargeUniqueArrayFills(node: Node)
    requires IsWellFormed(node) && HasNoLargeUniqueArray(node)
    ensures IsFillable(node)
    decreases node
  {
    hide MatchesShape, MatchesNode, IsCoherentNode;
    if !IsPinned(node) {
      match node
      case ArrayNode(_, items, minimumItems, _, _) =>
        NoLargeUniqueArrayFills(items);
        FillableIsSatisfiable(items);
        LanguageIsExact(items, Chosen(items));
        NonEmptyHasOne(Language(items), Chosen(items));
      case ObjectNode(_, properties, _, _, _) =>
        forall k | k in properties ensures IsFillable(properties[k]) {
          NoLargeUniqueArrayFills(properties[k]);
        }
        assert FillableKeys(node) == properties.Keys && |properties| == |properties.Keys|;
      case _ =>
    }
  }

  lemma NonEmptyHasOne<T>(s: set<T>, e: T)
    requires e in s
    ensures |s| >= 1
  {
  }

  /** An accepted schema with no demand for two or more distinct items is not vacuous. */
  lemma AcceptedSchemaIsNotVacuous(schema: Value) returns (v: Value)
    requires Compile(schema).Some? && HasNoLargeUniqueArray(Compile(schema).value)
    ensures Satisfies(schema, v)
  {
    hide Satisfies, Compile, IsFillable, IsWellFormed, MatchesNode, HasNoLargeUniqueArray;
    CompiledIsWellFormed(schema);
    NoLargeUniqueArrayFills(Compile(schema).value);
    SatisfiableExactly(schema);
    v :| Satisfies(schema, v);
  }

  // ---------------------------------------------------------------------------
  // How many values a leaf accepts
  // ---------------------------------------------------------------------------

  ghost function IntegersBetween(low: int, high: int): set<Value> {
    set i | low <= i <= high :: Integer(i)
  }

  lemma {:induction false} IntegersBetweenSize(low: int, high: int)
    requires low <= high + 1
    ensures |IntegersBetween(low, high)| == high - low + 1
    decreases high - low
  {
    if low <= high {
      IntegersBetweenSize(low, high - 1);
      assert IntegersBetween(low, high) == IntegersBetween(low, high - 1) + {Integer(high)};
    } else {
      assert IntegersBetween(low, high) == {};
    }
  }

  /** A pinned node accepts its `const`, else its `enum`; without either, `null` accepts
      one value, `boolean` two and a bounded number one per integer in between. */
  lemma LeafLanguageSize(node: Node)
    requires IsWellFormed(node)
    ensures node.common.constant.Some? ==> |Language(node)| == 1
    ensures node.common.constant.None? && node.common.enumeration.Some? ==>
              |Language(node)| == |node.common.enumeration.value|
    ensures !IsPinned(node) && node.NullNode? ==> |Language(node)| == 1
    ensures !IsPinned(node) && node.BooleanNode? ==> |Language(node)| == 2
    ensures !IsPinned(node) && node.NumberNode? && node.minimum.Some? && node.maximum.Some? ==>
              |Language(node)| == node.maximum.value.Floor - node.minimum.value.Floor + 1
  {
    hide Language, Candidates;
    forall v ensures v in Language(node) <==> MatchesNode(node, v) {
      LanguageIsExact(node, v);
    }
    if node.common.constant.Some? {
      assert Language(node) == {node.common.constant.value};
    } else if node.common.enumeration.Some? {
      assert Language(node) == node.common.enumeration.value;
    } else if node.NullNode? {
      assert Language(node) == {Null};
    } else if node.BooleanNode? {
      assert Language(node) == {Bool(false), Bool(true)};
    } else if node.NumberNode? && node.minimum.Some? && node.maximum.Some? {
      BoundedNumberLanguage(node);
    }
  }

  lemma BoundedNumberLanguage(node: Node)
    requires IsWellFormed(node) && !IsPinned(node)
    requires node.NumberNode? && node.minimum.Some? && node.maximum.Some?
    ensures |Language(node)| == node.maximum.value.Floor - node.minimum.value.Floor + 1
  {
    hide Language, Candidates;
    var low, high := node.minimum.value.Floor, node.maximum.value.Floor;
    forall v ensures v in Language(node) <==> v in IntegersBetween(low, high) {
      LanguageIsExact(node, v);
      if v.Num? && IsSafeInteger(v.n) {
        assert Integer(v.n.Floor) == v;
      }
    }
    assert Language(node) == IntegersBetween(low, high);
    IntegersBetweenSize(low, high);
  }

  function TwoDistinctNulls(): Value {
    Obj(map["type" := Str("array"), "items" := Obj(map["type" := Str("null")]),
            "minItems" := Num(2.0), "uniqueItems" := Bool(true)])
  }

  lemma TwoDistinctNullsCompiles()
    ensures Compile(TwoDistinctNulls()) == Some(ArrayNode(Common(None, None), NullNode(Common(None, None)), 2, 1024, true))
  {
    hide MatchesShape;
    var schema := TwoDistinctNulls();
    assert Compile(schema.fields["items"]) == Some(NullNode(Common(None, None)));
    assert IsArrayShell(schema);
  }

  /** The check that is missing: two distinct nulls are asked for, and the schema compiles. */
  lemma UniqueItemsCanBeVacuous()
    ensures Compile(TwoDistinctNulls()).Some?
    ensures forall v :: !Satisfies(TwoDistinctNulls(), v)
  {
    hide Compile, Satisfies, TwoDistinctNulls, Language;
    TwoDistinctNullsCompiles();
    SatisfiableExactly(TwoDistinctNulls());
    LeafLanguageSize(NullNode(Common(None, None)));
  }
}
