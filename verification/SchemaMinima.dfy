/** The least an argument can hold: properties and array items of the smallest values a
    compiled schema accepts, and so which schemas leave room within the argument limits. */
module SchemaMinima {
  import opened Wrappers
  import opened Json
  import opened Schema
  import opened SchemaMeaning
  import opened SchemaVacuity
  import opened Inspection

  // ---------------------------------------------------------------------------
  // What is counted
  // ---------------------------------------------------------------------------

  datatype Metric = PropertyCount | ItemCount | BothCounts

  function PropertyWeight(metric: Metric): nat { if metric.ItemCount? then 0 else 1 }

  function ItemWeight(metric: Metric): nat { if metric.PropertyCount? then 0 else 1 }

  function Weigh(metric: Metric, c: Counts): nat {
    match metric
    case PropertyCount => c.properties
    case ItemCount => c.arrayItems
    case BothCounts => c.properties + c.arrayItems
  }

  ghost function Cost(metric: Metric, v: Value): nat {
    Weigh(metric, CountsOf(v))
  }

  /** Every node of a tree but the root is a property's value or an array's item. */
  ghost predicate AreNodesCounted(c: Counts, roots: nat) {
    c.nodes == roots + c.properties + c.arrayItems
  }

  // ---------------------------------------------------------------------------
  // Sums over maps
  // ---------------------------------------------------------------------------

  ghost function Pick<T(!new)>(s: set<T>): T
    requires s != {}
  {
    var t :| t in s; t
  }

  ghost function Sum<T(!new)>(m: map<T, nat>): nat
    decreases |m|
  {
    if m == map[] then 0
    else
      var t := Pick(m.Keys);
      Sum(m - {t}) + m[t]
  }

  lemma {:induction false} SumTakesAny<T(!new)>(m: map<T, nat>, t: T)
    requires t in m
    ensures Sum(m) == Sum(m - {t}) + m[t]
    decreases |m|
  {
    var first := Pick(m.Keys);
    if first != t {
      SumTakesAny(m - {first}, t);
      SumTakesAny(m - {t}, first);
      assert m - {first} - {t} == m - {t} - {first};
    }
  }

  function Restrict<T(!new)>(m: map<T, nat>, s: set<T>): map<T, nat> {
    map t | t in m && t in s :: m[t]
  }

  lemma RestrictTakes<T(!new)>(m: map<T, nat>, s: set<T>, t: T)
    requires t in m && t in s
    ensures Sum(Restrict(m, s)) == Sum(Restrict(m, s - {t})) + m[t]
  {
    SumTakesAny(Restrict(m, s), t);
    assert Restrict(m, s) - {t} == Restrict(m, s - {t});
  }

  lemma {:induction false} SumIsMonotone<T(!new)>(a: map<T, nat>, b: map<T, nat>)
    requires a.Keys == b.Keys && forall t :: t in a ==> a[t] <= b[t]
    ensures Sum(a) <= Sum(b)
    decreases |a|
  {
    if a != map[] {
      var t := Pick(a.Keys);
      SumIsMonotone(a - {t}, b - {t});
      SumTakesAny(b, t);
    }
  }

  lemma {:induction false} SumSplits<T(!new)>(m: map<T, nat>, s: set<T>, part: set<T>)
    requires part <= s <= m.Keys
    ensures Sum(Restrict(m, s)) == Sum(Restrict(m, part)) + Sum(Restrict(m, s - part))
    decreases part
  {
    if part == {} {
      assert Restrict(m, part) == map[] && s - part == s;
    } else {
      var t := Pick(part);
      SumSplits(m, s - {t}, part - {t});
      RestrictTakes(m, s, t);
      RestrictTakes(m, part, t);
      assert s - {t} - (part - {t}) == s - part;
    }
  }

  // ---------------------------------------------------------------------------
  // The cheapest choice
  // ---------------------------------------------------------------------------

  function AddTo(cost: nat, rest: Option<nat>): Option<nat> {
    if rest.None? then None else Some(cost + rest.value)
  }

  function Least2(a: Option<nat>, b: Option<nat>): Option<nat> {
    if a.None? then b else if b.None? || a.value <= b.value then a else b
  }

  /** The least cost of `n` different keys, if there are as many. */
  ghost function LeastChoice<T(!new)>(costs: map<T, nat>, n: nat): Option<nat>
    decreases |costs|
  {
    if n == 0 then Some(0)
    else if costs == map[] then None
    else
      var t := Pick(costs.Keys);
      Least2(AddTo(costs[t], LeastChoice(costs - {t}, n - 1)), LeastChoice(costs - {t}, n))
  }

  lemma {:induction false} ChoiceIsLeast<T(!new)>(costs: map<T, nat>, n: nat, chosen: set<T>)
    requires chosen <= costs.Keys && |chosen| >= n
    ensures LeastChoice(costs, n).Some? && LeastChoice(costs, n).value <= Sum(Restrict(costs, chosen))
    decreases |costs|
  {
    if n > 0 {
      assert chosen != {} && costs != map[];
      var t := Pick(costs.Keys);
      var rest := costs - {t};
      assert Restrict(rest, chosen - {t}) == Restrict(costs, chosen - {t});
      if t in chosen {
        ChoiceIsLeast(rest, n - 1, chosen - {t});
        RestrictTakes(costs, chosen, t);
      } else {
        assert chosen - {t} == chosen;
        ChoiceIsLeast(rest, n, chosen);
      }
    }
  }

  lemma WithOneMore<T(!new)>(costs: map<T, nat>, some: set<T>, t: T)
    requires t in costs && t !in some && some <= costs.Keys
    ensures Sum(Restrict(costs, some + {t})) == Sum(Restrict(costs - {t}, some)) + costs[t]
    ensures Restrict(costs, some) == Restrict(costs - {t}, some)
  {
    assert some + {t} - {t} == some && Restrict(costs, some) == Restrict(costs - {t}, some);
    RestrictTakes(costs, some + {t}, t);
  }

  lemma ChoiceUnfolds<T(!new)>(costs: map<T, nat>, n: nat)
    requires n > 0 && LeastChoice(costs, n).Some?
    ensures costs != map[]
    ensures var t := Pick(costs.Keys);
            var with, without := AddTo(costs[t], LeastChoice(costs - {t}, n - 1)), LeastChoice(costs - {t}, n);
            (with.Some? && LeastChoice(costs, n) == with) || (without.Some? && LeastChoice(costs, n) == without)
  {
  }

  lemma {:induction false} ChoiceIsMade<T(!new)>(costs: map<T, nat>, n: nat) returns (chosen: set<T>)
    requires LeastChoice(costs, n).Some?
    ensures chosen <= costs.Keys && |chosen| == n && Sum(Restrict(costs, chosen)) == LeastChoice(costs, n).value
    decreases |costs|
  {
    if n == 0 {
      chosen := {};
      assert Restrict(costs, chosen) == map[];
    } else {
      hide Sum, Restrict, LeastChoice;
      ChoiceUnfolds(costs, n);
      var t := Pick(costs.Keys);
      var with := AddTo(costs[t], LeastChoice(costs - {t}, n - 1));
      if with.Some? && LeastChoice(costs, n) == with {
        var some := ChoiceIsMade(costs - {t}, n - 1);
        chosen := some + {t};
        WithOneMore(costs, some, t);
      } else {
        chosen := ChoiceIsMade(costs - {t}, n);
        WithOneMore(costs, chosen, t);
      }
    }
  }

  // ---------------------------------------------------------------------------
  // The cost of a value
  // ---------------------------------------------------------------------------

  lemma WeighAdds(metric: Metric, a: Counts, b: Counts)
    ensures Weigh(metric, Plus(a, b)) == Weigh(metric, a) + Weigh(metric, b)
  {
  }

  ghost function CostOfAll(metric: Metric, items: seq<Value>): nat {
    Weigh(metric, CountsOfAll(items))
  }

  lemma CostOfArray(metric: Metric, items: seq<Value>)
    ensures Cost(metric, Arr(items)) == ItemWeight(metric) * |items| + CostOfAll(metric, items)
  {
    CountsOfArray(items);
  }

  lemma CostOfOneMore(metric: Metric, items: seq<Value>, v: Value)
    ensures CostOfAll(metric, items + [v]) == CostOfAll(metric, items) + Cost(metric, v)
  {
    CountsOfOneMore(items, v);
    WeighAdds(metric, CountsOfAll(items), CountsOf(v));
  }

  ghost function FieldCosts(metric: Metric, fields: map<string, Value>): map<string, nat> {
    map k | k in fields :: Cost(metric, fields[k])
  }

  lemma {:induction false} WeighSums(metric: Metric, m: map<string, Counts>)
    ensures Weigh(metric, SumOver(m)) == Sum(map k | k in m :: Weigh(metric, m[k]))
    decreases |m|
  {
    var costs := map k | k in m :: Weigh(metric, m[k]);
    if m != map[] {
      var k := PickKey(m.Keys);
      WeighSums(metric, m - {k});
      SumTakesAny(costs, k);
      assert costs - {k} == map j | j in m - {k} :: Weigh(metric, (m - {k})[j]);
      WeighAdds(metric, SumOver(m - {k}), m[k]);
    } else {
      assert costs == map[];
    }
  }

  ghost function CountsOfFields(fields: map<string, Value>): map<string, Counts> {
    map k | k in fields :: CountsOf(fields[k])
  }

  lemma FieldsAreSummed(fields: map<string, Value>)
    ensures CountsOf(Obj(fields)) == Plus(Counts(1, |fields|, 0), SumOver(CountsOfFields(fields)))
  {
    hide SumOver;
    assert CountsOfFields(fields) == map k | k in fields :: CountsOf(fields[k]);
  }

  lemma CostOfObject(metric: Metric, fields: map<string, Value>)
    ensures Cost(metric, Obj(fields)) == PropertyWeight(metric) * |fields| + Sum(FieldCosts(metric, fields))
  {
    hide CountsOf, SumOver, Sum;
    FieldsAreSummed(fields);
    var counts := CountsOfFields(fields);
    WeighSums(metric, counts);
    assert (map k | k in counts :: Weigh(metric, counts[k])) == FieldCosts(metric, fields);
    WeighAdds(metric, Counts(1, |fields|, 0), SumOver(counts));
  }

  // ---------------------------------------------------------------------------
  // The least cost of a node
  // ---------------------------------------------------------------------------

  ghost function CostsOf(metric: Metric, values: set<Value>): map<Value, nat> {
    map v | v in values :: Cost(metric, v)
  }

  /** The least cost of a value the node accepts, if it accepts any. */
  ghost function Least(metric: Metric, node: Node): Option<nat>
    decreases node, 1
  {
    if IsPinned(node) then LeastChoice(CostsOf(metric, Language(node)), 1)
    else
      match node
      case ArrayNode(_, items, minimumItems, _, uniqueItems) =>
        if minimumItems == 0 then Some(0)
        else if uniqueItems && minimumItems > 1 then
          AddTo(ItemWeight(metric) * minimumItems, LeastChoice(CostsOf(metric, Language(items)), minimumItems))
        else if Least(metric, items).None? then None
        else Some(minimumItems * (ItemWeight(metric) + Least(metric, items).value))
      case ObjectNode(_, _, required, minimumProperties, _) =>
        var least := LeastOfEach(metric, node);
        if !(required <= least.Keys && |required| <= minimumProperties) then None
        else
          AddTo(PropertyWeight(metric) * minimumProperties + Sum(Restrict(least, required)),
                LeastChoice(least - required, minimumProperties - |required|))
      case _ => Some(0)
  }

  /** The least costs of the properties that have one. */
  ghost function LeastOfEach(metric: Metric, node: Node): map<string, nat>
    requires node.ObjectNode?
    decreases node, 0
  {
    map k | k in node.properties && Least(metric, node.properties[k]).Some? :: Least(metric, node.properties[k]).value
  }

  // ---------------------------------------------------------------------------
  // Every value costs at least that
  // ---------------------------------------------------------------------------

  lemma MemberIsNoLess(metric: Metric, node: Node, v: Value)
    requires MatchesNode(node, v)
    ensures var least := LeastChoice(CostsOf(metric, Language(node)), 1); least.Some? && least.value <= Cost(metric, v)
  {
    var costs := CostsOf(metric, Language(node));
    LanguageIsExact(node, v);
    hide MatchesNode, Language, Cost;
    ChoiceIsLeast(costs, 1, {v});
    RestrictTakes(costs, {v}, v);
    assert {v} - {v} == {} && Restrict(costs, {}) == map[];
  }

  /** A list costs at least its length times what each item costs at least. */
  lemma {:induction false} ListIsNoLess(metric: Metric, items: seq<Value>, least: nat)
    requires forall e :: e in items ==> least <= Cost(metric, e)
    ensures |items| * least <= CostOfAll(metric, items)
    decreases |items|
  {
    hide Cost, CostOfAll;
    if items != [] {
      var n := |items| - 1;
      assert items == items[..n] + [items[n]];
      ListIsNoLess(metric, items[..n], least);
      CostOfOneMore(metric, items[..n], items[n]);
      assert items[n] in items;
      assert |items| * least == n * least + least;
    }
  }

  /** The cost of a list of different values is the sum over its members. */
  lemma {:induction false} DistinctListCosts(metric: Metric, items: seq<Value>, costs: map<Value, nat>)
    requires |Elements(items)| == |items| && Elements(items) <= costs.Keys
    requires forall e :: e in costs ==> costs[e] == Cost(metric, e)
    ensures CostOfAll(metric, items) == Sum(Restrict(costs, Elements(items)))
    decreases |items|
  {
    hide Cost;
    if items == [] {
      assert Restrict(costs, Elements(items)) == map[];
    } else {
      var n := |items| - 1;
      var before, last := items[..n], items[n];
      assert items == before + [last];
      assert Elements(items) == Elements(before) + {last};
      ElementsAreFew(before);
      assert last !in Elements(before) && Elements(items) - {last} == Elements(before);
      hide Sum, Restrict, CostOfAll;
      DistinctListCosts(metric, before, costs);
      CostOfOneMore(metric, before, last);
      RestrictTakes(costs, Elements(items), last);
    }
  }

  lemma {:induction false} ElementsAreFew<T>(s: seq<T>)
    ensures |Elements(s)| <= |s|
    decreases |s|
  {
    if s != [] {
      ElementsAreFew(s[..|s| - 1]);
      assert Elements(s) == Elements(s[..|s| - 1]) + {s[|s| - 1]};
    }
  }

  lemma UniqueArrayIsNoLess(metric: Metric, node: Node, items: seq<Value>)
    requires node.ArrayNode? && node.uniqueItems && MatchesShape(node, Arr(items))
    ensures var least := LeastChoice(CostsOf(metric, Language(node.items)), node.minimumItems);
            least.Some? && least.value <= CostOfAll(metric, items)
  {
    var costs := CostsOf(metric, Language(node.items));
    forall e | e in Elements(items) ensures e in costs {
      assert MatchesNode(node.items, e);
      LanguageIsExact(node.items, e);
    }
    hide Language, MatchesNode, Cost;
    DistinctListCosts(metric, items, costs);
    ChoiceIsLeast(costs, node.minimumItems, Elements(items));
  }

  /** What must be held and the cheapest of the rest cost no more than any `n` that hold it. */
  lemma ChoiceWithRequired<T(!new)>(least: map<T, nat>, costs: map<T, nat>, required: set<T>, n: nat)
    requires required <= costs.Keys <= least.Keys && |required| <= n <= |costs.Keys|
    requires forall t :: t in costs ==> least[t] <= costs[t]
    ensures var rest := LeastChoice(least - required, n - |required|);
            rest.Some? && Sum(Restrict(least, required)) + rest.value <= Sum(costs)
  {
    hide Sum, LeastChoice;
    var keys := costs.Keys;
    var others, optional := keys - required, least - required;
    SumIsMonotone(Restrict(least, keys), costs);
    SumSplits(least, keys, required);
    assert |others| == |keys| - |required|;
    assert Restrict(optional, others) == Restrict(least, others);
    ChoiceIsLeast(optional, n - |required|, others);
  }

  /** And some `n` that hold it cost exactly that. */
  lemma ChoiceWithRequiredIsMade<T(!new)>(least: map<T, nat>, required: set<T>, n: nat) returns (keys: set<T>)
    requires required <= least.Keys && |required| <= n && LeastChoice(least - required, n - |required|).Some?
    ensures required <= keys <= least.Keys && |keys| == n
    ensures Sum(Restrict(least, keys)) == Sum(Restrict(least, required)) + LeastChoice(least - required, n - |required|).value
  {
    hide Sum, LeastChoice;
    var optional := least - required;
    var others := ChoiceIsMade(optional, n - |required|);
    keys := required + others;
    assert keys - required == others && Restrict(optional, others) == Restrict(least, others);
    SumSplits(least, keys, required);
  }

  lemma ObjectIsNoLess(metric: Metric, node: Node, fields: map<string, Value>)
    requires node.ObjectNode? && MatchesShape(node, Obj(fields)) && |node.required| <= node.minimumProperties
    requires forall k :: k in fields ==>
      k in LeastOfEach(metric, node) && LeastOfEach(metric, node)[k] <= Cost(metric, fields[k])
    ensures var least := LeastOfEach(metric, node);
            && node.required <= least.Keys
            && var rest := LeastChoice(least - node.required, node.minimumProperties - |node.required|);
            && rest.Some?
            && Sum(Restrict(least, node.required)) + rest.value <= Sum(FieldCosts(metric, fields))
  {
    hide MatchesShape, LeastOfEach, Cost, Sum, LeastChoice, Restrict, Least;
    HoldsRequired(node, fields);
    assert FieldCosts(metric, fields).Keys == fields.Keys && |fields.Keys| == |fields|;
    ChoiceWithRequired(LeastOfEach(metric, node), FieldCosts(metric, fields), node.required, node.minimumProperties);
  }

  lemma HoldsRequired(node: Node, fields: map<string, Value>)
    requires node.ObjectNode? && MatchesShape(node, Obj(fields))
    ensures node.required <= fields.Keys && node.minimumProperties <= |fields|
  {
  }

  lemma LeastOfArray(metric: Metric, node: Node)
    requires node.ArrayNode? && !IsPinned(node)
    ensures Least(metric, node) ==
            if node.minimumItems == 0 then Some(0)
            else if node.uniqueItems && node.minimumItems > 1 then
              AddTo(ItemWeight(metric) * node.minimumItems, LeastChoice(CostsOf(metric, Language(node.items)), node.minimumItems))
            else if Least(metric, node.items).None? then None
            else Some(node.minimumItems * (ItemWeight(metric) + Least(metric, node.items).value))
  {
    hide LeastChoice, Language, CostsOf;
  }

  lemma LeastOfObject(metric: Metric, node: Node)
    requires node.ObjectNode? && !IsPinned(node)
    ensures var least := LeastOfEach(metric, node);
            Least(metric, node) ==
            if !(node.required <= least.Keys && |node.required| <= node.minimumProperties) then None
            else
              AddTo(PropertyWeight(metric) * node.minimumProperties + Sum(Restrict(least, node.required)),
                    LeastChoice(least - node.required, node.minimumProperties - |node.required|))
  {
    hide LeastChoice, Sum, Restrict, LeastOfEach;
  }

  lemma LeastOfLeaf(metric: Metric, node: Node)
    requires !node.ArrayNode? && !node.ObjectNode? && !IsPinned(node)
    ensures Least(metric, node) == Some(0)
  {
  }

  lemma ItemMatches(node: Node, items: seq<Value>, e: Value)
    requires node.ArrayNode? && MatchesShape(node, Arr(items)) && e in items
    ensures MatchesNode(node.items, e)
  {
  }

  lemma FieldMatches(node: Node, fields: map<string, Value>, k: string)
    requires node.ObjectNode? && MatchesShape(node, Obj(fields)) && k in fields
    ensures k in node.properties && MatchesNode(node.properties[k], fields[k])
  {
  }

  lemma ShapeHoldsEnough(node: Node, v: Value)
    requires MatchesShape(node, v)
    ensures node.ArrayNode? ==> v.Arr? && node.minimumItems <= |v.items|
    ensures node.ObjectNode? ==> v.Obj? && node.minimumProperties <= |v.fields|
    ensures !node.ArrayNode? && !node.ObjectNode? ==> !v.Arr? && !v.Obj?
  {
  }

  lemma ChildrenAreWellFormed(node: Node)
    requires IsWellFormed(node)
    ensures node.ArrayNode? ==> IsWellFormed(node.items) && node.minimumItems <= node.maximumItems
    ensures node.ObjectNode? ==>
              && node.required <= node.properties.Keys
              && |node.required| <= node.minimumProperties <= node.maximumProperties <= |node.properties|
              && forall k :: k in node.properties ==> !IsUnsafeObjectKey(k) && IsWellFormed(node.properties[k])
  {
    hide IsCoherentNode;
  }

  lemma ScaledTogether(n: nat, m: nat, weight: nat, least: nat)
    requires n <= m
    ensures n * (weight + least) == weight * n + n * least <= weight * m + m * least
  {
    assert n * least <= m * least;
    assert weight * n <= weight * m;
  }

  lemma LeafIsFree(metric: Metric, v: Value)
    requires !v.Arr? && !v.Obj?
    ensures Cost(metric, v) == 0
  {
  }

  /** Whatever a node accepts costs at least the node's least cost. */
  lemma {:induction false} LeastIsLeast(metric: Metric, node: Node, v: Value)
    requires IsWellFormed(node) && MatchesNode(node, v)
    ensures Least(metric, node).Some? && Least(metric, node).value <= Cost(metric, v)
    decreases node, 1
  {
    hide Least, LeastChoice, Cost, CostOfAll, CostsOf, Language, IsWellFormed, MatchesShape, Sum, Restrict, LeastOfEach, IsPinned;
    if IsPinned(node) {
      MemberIsNoLess(metric, node, v);
      PinnedIsAMember(metric, node);
    } else {
      ShapeHoldsEnough(node, v);
      match node
      case ArrayNode(_, _, minimumItems, _, _) =>
        LeastOfArray(metric, node);
        CostOfArray(metric, v.items);
        if minimumItems > 0 {
          ArrayIsNoLess(metric, node, v.items);
        }
      case ObjectNode(_, properties, required, minimumProperties, _) =>
        LeastOfObject(metric, node);
        ChildrenAreWellFormed(node);
        forall k | k in v.fields
          ensures k in LeastOfEach(metric, node) && LeastOfEach(metric, node)[k] <= Cost(metric, v.fields[k])
        {
          FieldMatches(node, v.fields, k);
          LeastIsLeast(metric, properties[k], v.fields[k]);
          EachHasItsLeast(metric, node, k);
        }
        ObjectIsNoLess(metric, node, v.fields);
        CostOfObject(metric, v.fields);
        assert PropertyWeight(metric) * minimumProperties <= PropertyWeight(metric) * |v.fields|;
      case _ =>
        LeastOfLeaf(metric, node);
        LeafIsFree(metric, v);
    }
  }

  lemma PinnedIsAMember(metric: Metric, node: Node)
    requires IsPinned(node)
    ensures Least(metric, node) == LeastChoice(CostsOf(metric, Language(node)), 1)
  {
  }

  lemma EachHasItsLeast(metric: Metric, node: Node, k: string)
    requires node.ObjectNode? && k in node.properties
    ensures k in LeastOfEach(metric, node) <==> Least(metric, node.properties[k]).Some?
    ensures k in LeastOfEach(metric, node) ==> LeastOfEach(metric, node)[k] == Least(metric, node.properties[k]).value
    ensures LeastOfEach(metric, node).Keys <= node.properties.Keys
  {
    hide Least;
  }

  lemma ArrayIsNoLess(metric: Metric, node: Node, items: seq<Value>)
    requires node.ArrayNode? && IsWellFormed(node) && !IsPinned(node) && MatchesShape(node, Arr(items)) && node.minimumItems > 0
    ensures Least(metric, node).Some?
    ensures Least(metric, node).value <= ItemWeight(metric) * |items| + CostOfAll(metric, items)
    decreases node, 0
  {
    hide Least, LeastChoice, Cost, CostOfAll, CostsOf, Language, IsWellFormed, MatchesShape, IsPinned;
    var n := node.minimumItems;
    LeastOfArray(metric, node);
    ShapeHoldsEnough(node, Arr(items));
    if node.uniqueItems && n > 1 {
      UniqueArrayIsNoLess(metric, node, items);
      assert ItemWeight(metric) * n <= ItemWeight(metric) * |items|;
    } else {
      ChildrenAreWellFormed(node);
      forall e | e in items
        ensures Least(metric, node.items).Some? && Least(metric, node.items).value <= Cost(metric, e)
      {
        ItemMatches(node, items, e);
        LeastIsLeast(metric, node.items, e);
      }
      assert items[0] in items;
      var least := Least(metric, node.items).value;
      ListIsNoLess(metric, items, least);
      ScaledTogether(n, |items|, ItemWeight(metric), least);
    }
  }

  // ---------------------------------------------------------------------------
  // Some value costs no more
  // ---------------------------------------------------------------------------

  lemma MemberIsReached(metric: Metric, node: Node) returns (v: Value)
    requires LeastChoice(CostsOf(metric, Language(node)), 1).Some?
    ensures MatchesNode(node, v) && Cost(metric, v) == LeastChoice(CostsOf(metric, Language(node)), 1).value
  {
    hide Language, MatchesNode, Cost;
    var costs := CostsOf(metric, Language(node));
    var chosen := ChoiceIsMade(costs, 1);
    v :| v in chosen;
    SingletonIs(chosen, v);
    LanguageIsExact(node, v);
    RestrictTakes(costs, chosen, v);
    assert Restrict(costs, chosen - {v}) == map[];
  }

  lemma SingletonIs<T>(s: set<T>, t: T)
    requires |s| == 1 && t in s
    ensures s - {t} == {}
  {
    assert |s - {t}| == 0;
  }

  lemma {:induction false} CopiesCost(metric: Metric, v: Value, n: nat)
    ensures CostOfAll(metric, seq(n, _ => v)) == n * Cost(metric, v)
    decreases n
  {
    hide Cost, CostOfAll;
    if n == 0 {
      assert seq(n, _ => v) == [];
      NothingCostsNothing(metric);
    } else {
      assert seq(n, _ => v) == seq(n - 1, _ => v) + [v];
      CopiesCost(metric, v, n - 1);
      CostOfOneMore(metric, seq(n - 1, _ => v), v);
      assert n * Cost(metric, v) == (n - 1) * Cost(metric, v) + Cost(metric, v);
    }
  }

  lemma NothingCostsNothing(metric: Metric)
    ensures CostOfAll(metric, []) == 0
  {
  }

  lemma ArrayIsReached(metric: Metric, node: Node, item: Value) returns (v: Value)
    requires node.ArrayNode? && IsWellFormed(node) && !IsPinned(node) && Least(metric, node).Some?
    requires node.minimumItems > 0 && !(node.uniqueItems && node.minimumItems > 1) ==>
               MatchesNode(node.items, item) && Least(metric, node.items) == Some(Cost(metric, item))
    ensures MatchesShape(node, v) && Cost(metric, v) == Least(metric, node).value
  {
    hide Least, LeastChoice, Cost, CostOfAll, CostsOf, Language, MatchesNode, IsWellFormed, Elements, IsPinned;
    var n := node.minimumItems;
    LeastOfArray(metric, node);
    ChildrenAreWellFormed(node);
    var list: seq<Value>;
    if node.uniqueItems && n > 1 {
      list := UniqueListIsReached(metric, node.items, n);
    } else {
      list := seq(n, _ => item);
      CopiesCost(metric, item, n);
      FewCopiesAreDistinct(item, n);
      if n > 0 {
        ScaledTogether(n, n, ItemWeight(metric), Cost(metric, item));
      }
    }
    ArrayOfMatches(node, list);
    CostOfArray(metric, list);
    v := Arr(list);
  }

  lemma FewCopiesAreDistinct(v: Value, n: nat)
    ensures n <= 1 ==> |Elements(seq(n, _ => v))| == n
  {
    if n == 1 {
      RepeatedElements(v, n);
    }
  }

  lemma UniqueListIsReached(metric: Metric, items: Node, n: nat) returns (list: seq<Value>)
    requires LeastChoice(CostsOf(metric, Language(items)), n).Some?
    ensures |list| == n && |Elements(list)| == n && forall e :: e in list ==> MatchesNode(items, e)
    ensures CostOfAll(metric, list) == LeastChoice(CostsOf(metric, Language(items)), n).value
  {
    hide Language, MatchesNode, Cost, LeastChoice;
    var costs := CostsOf(metric, Language(items));
    var chosen := ChoiceIsMade(costs, n);
    list := ListOf(chosen, n);
    SameSize(Elements(list), chosen);
    forall e | e in list ensures MatchesNode(items, e) {
      assert e in chosen;
      LanguageIsExact(items, e);
    }
    DistinctListCosts(metric, list, costs);
  }

  lemma SameSize<T>(some: set<T>, all: set<T>)
    requires some <= all && |some| == |all|
    ensures some == all
  {
    if some != all {
      var t :| t in all && t !in some;
      SubsetIsSmaller(some, all - {t});
    }
  }

  /** The fields of the cheapest object: what it must hold, and the cheapest of the rest. */
  lemma ObjectIsReached(metric: Metric, node: Node, values: map<string, Value>) returns (v: Value)
    requires node.ObjectNode? && IsWellFormed(node) && !IsPinned(node) && Least(metric, node).Some?
    requires values.Keys == LeastOfEach(metric, node).Keys
    requires forall k :: k in values ==>
      && k in node.properties && MatchesNode(node.properties[k], values[k])
      && LeastOfEach(metric, node)[k] == Cost(metric, values[k])
    ensures MatchesShape(node, v) && Cost(metric, v) == Least(metric, node).value
  {
    hide Least, LeastChoice, Cost, MatchesNode, IsWellFormed, LeastOfEach, Sum, IsPinned, MatchesShape;
    LeastOfObject(metric, node);
    ChildrenAreWellFormed(node);
    var least := LeastOfEach(metric, node);
    var keys := ChoiceWithRequiredIsMade(least, node.required, node.minimumProperties);
    var fields := map k | k in values && k in keys :: values[k];
    assert fields.Keys == keys && |fields| == |keys|;
    assert Restrict(least, keys) == FieldCosts(metric, fields);
    CostOfObject(metric, fields);
    ObjectOfMatches(node, fields);
    v := Obj(fields);
  }

  lemma UnpinnedMatches(node: Node, v: Value)
    requires !IsPinned(node) && MatchesShape(node, v)
    ensures MatchesNode(node, v)
  {
    hide MatchesShape;
  }

  ghost predicate IsCheapest(metric: Metric, node: Node, v: Value) {
    MatchesNode(node, v) && Least(metric, node) == Some(Cost(metric, v))
  }

  ghost function Cheapest(metric: Metric, node: Node): (v: Value)
    requires exists v :: IsCheapest(metric, node, v)
    ensures IsCheapest(metric, node, v)
  {
    var v :| IsCheapest(metric, node, v); v
  }

  lemma LeafIsReached(metric: Metric, node: Node) returns (v: Value)
    requires IsWellFormed(node) && !IsPinned(node) && !node.ArrayNode? && !node.ObjectNode?
    ensures MatchesShape(node, v) && !v.Arr? && !v.Obj?
  {
    match node
    case StringNode(_, _, _, _) => v := StringWitness(node);
    case NumberNode(_, _, _) => v := NumberWitness(node);
    case BooleanNode(_) => v := Bool(true);
    case NullNode(_) => v := Null;
  }

  /** Some value the node accepts costs exactly the node's least cost. */
  lemma {:induction false} LeastIsReached(metric: Metric, node: Node) returns (v: Value)
    requires IsWellFormed(node) && Least(metric, node).Some?
    ensures IsCheapest(metric, node, v)
    decreases node
  {
    hide Least, LeastChoice, Cost, CostsOf, Language, IsWellFormed, MatchesShape, MatchesNode, Sum, Restrict, LeastOfEach, IsPinned;
    if IsPinned(node) {
      PinnedIsAMember(metric, node);
      v := MemberIsReached(metric, node);
    } else {
      ChildrenAreWellFormed(node);
      match node {
        case ArrayNode(_, items, minimumItems, _, uniqueItems) =>
          var item := Null;
          LeastOfArray(metric, node);
          if minimumItems > 0 && !(uniqueItems && minimumItems > 1) {
            item := LeastIsReached(metric, items);
          }
          v := ArrayIsReached(metric, node, item);
        case ObjectNode(_, properties, _, _, _) =>
          forall k | k in properties && Least(metric, properties[k]).Some?
            ensures exists w :: IsCheapest(metric, properties[k], w)
          {
            var w := LeastIsReached(metric, properties[k]);
          }
          var values := CheapestOfEach(metric, node);
          v := ObjectIsReached(metric, node, values);
        case _ =>
          v := LeafIsReached(metric, node);
          LeastOfLeaf(metric, node);
          LeafIsFree(metric, v);
      }
      UnpinnedMatches(node, v);
    }
  }

  lemma CheapestOfEach(metric: Metric, node: Node) returns (values: map<string, Value>)
    requires node.ObjectNode?
    requires forall k :: k in node.properties && Least(metric, node.properties[k]).Some? ==>
      exists w :: IsCheapest(metric, node.properties[k], w)
    ensures values.Keys == LeastOfEach(metric, node).Keys
    ensures forall k :: k in values ==>
      && k in node.properties && MatchesNode(node.properties[k], values[k])
      && LeastOfEach(metric, node)[k] == Cost(metric, values[k])
  {
    hide Least, Cost, MatchesNode;
    values := map k | k in node.properties && Least(metric, node.properties[k]).Some? :: Cheapest(metric, node.properties[k]);
    forall k | k in values
      ensures MatchesNode(node.properties[k], values[k]) && LeastOfEach(metric, node)[k] == Cost(metric, values[k])
    {
      assert IsCheapest(metric, node.properties[k], values[k]);
    }
  }

  // ---------------------------------------------------------------------------
  // Depth and the other per-value limits
  // ---------------------------------------------------------------------------

  /** The node has at most `depth` levels below itself. */
  predicate IsShallow(node: Node, depth: int) {
    && depth >= 0
    && (node.ArrayNode? ==> IsShallow(node.items, depth - 1))
    && (node.ObjectNode? ==> forall k :: k in node.properties ==> IsShallow(node.properties[k], depth - 1))
  }

  /** Whatever a shallow node accepts is regular: no deeper than the node, with safe numbers
      and keys and no array past its cap. */
  lemma {:induction false} AcceptedIsRegular(node: Node, v: Value, limits: Limits, depth: int)
    requires IsWellFormed(node) && MatchesShape(node, v) && IsShallow(node, depth)
    requires limits.maximumArrayItemsPerArray == MAXIMUM_ARGUMENT_ARRAY_ITEMS_PER_ARRAY
    ensures IsRegular(v, limits, depth)
    decreases node
  {
    hide IsCoherentNode, IsStringShape;
    match node
    case ArrayNode(_, items, _, _, _) =>
      forall e | e in v.items ensures IsRegular(e, limits, depth - 1) {
        AcceptedIsRegular(items, e, limits, depth - 1);
      }
      assert forall i :: 0 <= i < |v.items| ==> v.items[i] in v.items;
    case ObjectNode(_, properties, _, _, _) =>
      forall k | k in v.fields ensures IsRegular(v.fields[k], limits, depth - 1) {
        AcceptedIsRegular(properties[k], v.fields[k], limits, depth - 1);
      }
    case _ =>
  }

  // ---------------------------------------------------------------------------
  // Which schemas leave room
  // ---------------------------------------------------------------------------

  /** One limit at a time: some satisfying value stays within it exactly when the compiled
      schema's least cost does. */
  lemma LimitExactly(schema: Value, metric: Metric, limit: nat)
    requires Compile(schema).Some?
    ensures (exists v :: Satisfies(schema, v) && Cost(metric, v) <= limit) <==>
            var least := Least(metric, Compile(schema).value); least.Some? && least.value <= limit
  {
    hide Satisfies, Compile, IsWellFormed, MatchesNode, Least, Cost;
    var node := Compile(schema).value;
    CompiledIsWellFormed(schema);
    forall v | Satisfies(schema, v) ensures Least(metric, node).Some? && Least(metric, node).value <= Cost(metric, v) {
      CompilationPreservesMeaning(schema, v);
      LeastIsLeast(metric, node, v);
    }
    if Least(metric, node).Some? {
      var v := LeastIsReached(metric, node);
      CompilationPreservesMeaning(schema, v);
      assert Satisfies(schema, v) && Cost(metric, v) == Least(metric, node).value;
    }
  }

  lemma {:induction false} NodesOfAllAreCounted(items: seq<Value>)
    requires forall e :: e in items ==> AreNodesCounted(CountsOf(e), 1)
    ensures AreNodesCounted(CountsOfAll(items), |items|)
    decreases |items|
  {
    hide CountsOf;
    if items != [] {
      var n := |items| - 1;
      assert items == items[..n] + [items[n]];
      NodesOfAllAreCounted(items[..n]);
      CountsOfOneMore(items[..n], items[n]);
      assert items[n] in items;
    }
  }

  lemma {:induction false} NodesOfEachAreCounted(m: map<string, Counts>)
    requires forall k :: k in m ==> AreNodesCounted(m[k], 1)
    ensures AreNodesCounted(SumOver(m), |m|)
    decreases |m|
  {
    if m != map[] {
      var k := PickKey(m.Keys);
      NodesOfEachAreCounted(m - {k});
      assert (m - {k}).Keys == m.Keys - {k};
    }
  }

  /** A value has one node for each property and item, and one more. */
  lemma {:induction false} NodesAreCounted(v: Value)
    ensures AreNodesCounted(CountsOf(v), 1)
    decreases v
  {
    hide CountsOf, SumOver, CountsOfAll;
    match v
    case Arr(items) =>
      forall e | e in items ensures AreNodesCounted(CountsOf(e), 1) {
        NodesAreCounted(e);
      }
      NodesOfAllAreCounted(items);
      CountsOfArray(items);
    case Obj(fields) =>
      forall k | k in fields ensures AreNodesCounted(CountsOf(fields[k]), 1) {
        NodesAreCounted(fields[k]);
      }
      assert CountsOfFields(fields).Keys == fields.Keys && |CountsOfFields(fields)| == |fields|;
      NodesOfEachAreCounted(CountsOfFields(fields));
      FieldsAreSummed(fields);
    case _ => LeafCounts(v);
  }

  lemma LeafCounts(v: Value)
    requires !v.Arr? && !v.Obj?
    ensures CountsOf(v) == Counts(1, 0, 0)
  {
  }
}
