/** The bounded inspection of a JavaScript value before it is compiled or matched.  The
    value is a graph of cells, possibly cyclic or shared; what is accepted is its tree. */
module Inspection {
  import opened Wrappers
  import opened Json

  type Ref = nat

  /** `OtherCell` stands for whatever is not plain data: functions, symbols, `undefined`,
      sparse arrays, accessors and objects with a foreign prototype. */
  datatype Cell =
    | NullCell
    | BoolCell(b: bool)
    | NumCell(n: real)
    | StrCell(s: string)
    | ArrCell(items: seq<Ref>)
    | ObjCell(fields: map<string, Ref>)
    | OtherCell

  type Graph = map<Ref, Cell>

  function At(g: Graph, r: Ref): Cell {
    if r in g then g[r] else OtherCell
  }

  datatype Limits = Limits(
    maximumBytes: nat,
    maximumDepth: nat,
    maximumNodes: nat,
    maximumProperties: nat,
    maximumArrayItems: nat,
    maximumArrayItemsPerArray: nat)

  // ---------------------------------------------------------------------------
  // The tree of a value
  // ---------------------------------------------------------------------------

  /** `t` is the finite tree that following references from `r` unfolds to. */
  ghost predicate Unfolds(g: Graph, r: Ref, t: Value)
    decreases t
  {
    match At(g, r)
    case NullCell => t.Null?
    case BoolCell(b) => t == Bool(b)
    case NumCell(n) => t == Num(n)
    case StrCell(s) => t == Str(s)
    case ArrCell(items) =>
      t.Arr? && |t.items| == |items| && forall i :: 0 <= i < |items| ==> Unfolds(g, items[i], t.items[i])
    case ObjCell(fields) =>
      t.Obj? && t.fields.Keys == fields.Keys && forall k :: k in fields ==> Unfolds(g, fields[k], t.fields[k])
    case OtherCell => false
  }

  lemma {:induction false} UnfoldsToOne(g: Graph, r: Ref, t: Value, u: Value)
    requires Unfolds(g, r, t) && Unfolds(g, r, u)
    ensures t == u
    decreases t
  {
    match At(g, r)
    case ArrCell(items) =>
      forall i | 0 <= i < |items| ensures t.items[i] == u.items[i] {
        UnfoldsToOne(g, items[i], t.items[i], u.items[i]);
      }
      assert t.items == u.items;
    case ObjCell(fields) =>
      forall k | k in fields ensures t.fields[k] == u.fields[k] {
        UnfoldsToOne(g, fields[k], t.fields[k], u.fields[k]);
      }
      assert t.fields == u.fields;
    case _ =>
  }

  // ---------------------------------------------------------------------------
  // Whole-tree measures
  // ---------------------------------------------------------------------------

  datatype Counts = Counts(nodes: nat, properties: nat, arrayItems: nat)

  function Plus(a: Counts, b: Counts): Counts {
    Counts(a.nodes + b.nodes, a.properties + b.properties, a.arrayItems + b.arrayItems)
  }

  predicate IsWithin(c: Counts, limits: Limits) {
    && c.nodes <= limits.maximumNodes
    && c.properties <= limits.maximumProperties
    && c.arrayItems <= limits.maximumArrayItems
  }

  ghost function SumOf(s: seq<Counts>): Counts {
    if s == [] then Counts(0, 0, 0) else Plus(SumOf(s[..|s| - 1]), s[|s| - 1])
  }

  ghost function SumOver(m: map<string, Counts>): Counts
    decreases |m|
  {
    if m == map[] then Counts(0, 0, 0)
    else
      var k := PickKey(m.Keys);
      Plus(SumOver(m - {k}), m[k])
  }

  /** Nodes, properties and array items of a tree, itself included. */
  ghost function CountsOf(t: Value): Counts {
    match t
    case Arr(items) =>
      Plus(Counts(1, 0, |items|), SumOf(seq(|items|, i requires 0 <= i < |items| => CountsOf(items[i]))))
    case Obj(fields) =>
      Plus(Counts(1, |fields|, 0), SumOver(map k | k in fields :: CountsOf(fields[k])))
    case _ => Counts(1, 0, 0)
  }

  ghost function CountsOfEach(ts: seq<Value>): (counts: seq<Counts>)
    ensures |counts| == |ts|
  {
    seq(|ts|, i requires 0 <= i < |ts| => CountsOf(ts[i]))
  }

  ghost function CountsOfAll(ts: seq<Value>): Counts {
    SumOf(CountsOfEach(ts))
  }

  lemma CountsOfArray(items: seq<Value>)
    ensures CountsOf(Arr(items)) == Plus(Counts(1, 0, |items|), CountsOfAll(items))
  {
    assert CountsOfEach(items) == seq(|items|, i requires 0 <= i < |items| => CountsOf(items[i]));
  }

  /** Every number is a safe integer, every key is safe, no array is too long and no leaf
      lies below `depth` further levels. */
  ghost predicate IsRegular(t: Value, limits: Limits, depth: int)
    decreases t
  {
    && depth >= 0
    && (t.Num? ==> IsSafeInteger(t.n))
    && (t.Arr? ==>
          && |t.items| <= limits.maximumArrayItemsPerArray
          && forall i :: 0 <= i < |t.items| ==> IsRegular(t.items[i], limits, depth - 1))
    && (t.Obj? ==>
          && IsExactDataRecord(t)
          && forall k :: k in t.fields ==> IsRegular(t.fields[k], limits, depth - 1))
  }

  ghost predicate AllRegular(ts: seq<Value>, limits: Limits, depth: int) {
    forall i :: 0 <= i < |ts| ==> IsRegular(ts[i], limits, depth)
  }

  /** What a traversal that starts at `depth` with `spent` already counted accepts. */
  ghost predicate IsAdmitted(t: Value, limits: Limits, depth: nat, spent: Counts) {
    IsRegular(t, limits, limits.maximumDepth - depth) && IsWithin(Plus(spent, CountsOf(t)), limits)
  }

  ghost predicate AllAdmitted(ts: seq<Value>, limits: Limits, depth: nat, spent: Counts) {
    AllRegular(ts, limits, limits.maximumDepth - depth) && IsWithin(Plus(spent, CountsOfAll(ts)), limits)
  }

  predicate IsAtMost(a: Counts, b: Counts) {
    a.nodes <= b.nodes && a.properties <= b.properties && a.arrayItems <= b.arrayItems
  }

  lemma {:induction false} SumGrows(s: seq<Counts>, n: nat)
    requires n <= |s|
    ensures IsAtMost(SumOf(s[..n]), SumOf(s))
    decreases |s|
  {
    if n == |s| {
      assert s[..n] == s;
    } else {
      var shorter := s[..|s| - 1];
      SumGrows(shorter, n);
      assert shorter[..n] == s[..n];
    }
  }

  lemma CountsOfAllGrows(ts: seq<Value>, n: nat)
    requires n <= |ts|
    ensures IsAtMost(CountsOfAll(ts[..n]), CountsOfAll(ts))
  {
    SumGrows(CountsOfEach(ts), n);
    assert CountsOfEach(ts)[..n] == CountsOfEach(ts[..n]);
  }

  lemma CountsOfOneMore(ts: seq<Value>, t: Value)
    ensures CountsOfAll(ts + [t]) == Plus(CountsOfAll(ts), CountsOf(t))
  {
    hide CountsOf;
    assert CountsOfEach(ts + [t])[..|ts|] == CountsOfEach(ts);
  }

  /** The sum over an object does not depend on which property is taken out first. */
  lemma {:induction false} SumOverTakesAny(m: map<string, Counts>, k: string)
    requires k in m
    ensures SumOver(m) == Plus(SumOver(m - {k}), m[k])
    decreases |m|
  {
    var first := PickKey(m.Keys);
    if first != k {
      SumOverTakesAny(m - {first}, k);
      SumOverTakesAny(m - {k}, first);
      assert m - {first} - {k} == m - {k} - {first};
    }
  }

  // ---------------------------------------------------------------------------
  // Objects as lists of values
  // ---------------------------------------------------------------------------

  /** `keys` names every property once, in some order. */
  ghost predicate IsListing<T>(keys: seq<string>, fields: map<string, T>) {
    && (forall k :: k in fields <==> k in keys)
    && IsDistinctList(keys)
  }

  predicate IsDistinctList(keys: seq<string>) {
    forall i, j :: 0 <= i < j < |keys| ==> keys[i] != keys[j]
  }

  function ValuesAt<T>(keys: seq<string>, fields: map<string, T>): seq<T>
    requires forall k :: k in keys ==> k in fields
  {
    seq(|keys|, i requires 0 <= i < |keys| => fields[keys[i]])
  }

  method KeysOf(fields: map<string, Ref>) returns (keys: seq<string>)
    ensures IsListing(keys, fields)
  {
    keys := [];
    var remaining := fields.Keys;
    while remaining != {}
      invariant remaining <= fields.Keys
      invariant forall k :: k in fields <==> k in keys || k in remaining
      invariant forall k :: k in keys ==> k !in remaining
      invariant forall i, j :: 0 <= i < j < |keys| ==> keys[i] != keys[j]
      decreases remaining
    {
      var key :| key in remaining;
      keys := keys + [key];
      remaining := remaining - {key};
    }
  }

  function Named(keys: seq<string>): set<string> {
    set k | k in keys
  }

  lemma ListingWithoutLast<T>(keys: seq<string>, m: map<string, T>)
    requires IsListing(keys, m) && keys != []
    ensures var n := |keys| - 1;
            && keys[n] in m && IsListing(keys[..n], m - {keys[n]})
            && ValuesAt(keys, m)[..n] == ValuesAt(keys[..n], m - {keys[n]})
  {
    var n := |keys| - 1;
    assert keys == keys[..n] + [keys[n]];
  }

  lemma {:induction false} SumOfListing(m: map<string, Counts>, keys: seq<string>)
    requires IsListing(keys, m)
    ensures SumOver(m) == SumOf(ValuesAt(keys, m))
    decreases |keys|
  {
    if keys == [] {
      assert m == map[];
    } else {
      var n := |keys| - 1;
      ListingWithoutLast(keys, m);
      SumOfListing(m - {keys[n]}, keys[..n]);
      SumOverTakesAny(m, keys[n]);
    }
  }

  lemma CountsOfObject(t: Value, keys: seq<string>)
    requires t.Obj? && IsListing(keys, t.fields)
    ensures CountsOf(t) == Plus(Counts(1, |t.fields|, 0), CountsOfAll(ValuesAt(keys, t.fields)))
  {
    hide SumOf, SumOver;
    var counts := map k | k in t.fields :: CountsOf(t.fields[k]);
    SumOfListing(counts, keys);
    assert ValuesAt(keys, counts) == CountsOfEach(ValuesAt(keys, t.fields));
  }

  lemma RegularListing(fields: map<string, Value>, keys: seq<string>, limits: Limits, depth: int)
    requires IsListing(keys, fields)
    ensures (forall k :: k in fields ==> IsRegular(fields[k], limits, depth)) <==>
            AllRegular(ValuesAt(keys, fields), limits, depth)
  {
    var values := ValuesAt(keys, fields);
    if AllRegular(values, limits, depth) {
      forall k | k in fields ensures IsRegular(fields[k], limits, depth) {
        var i :| 0 <= i < |keys| && keys[i] == k;
        assert values[i] == fields[k];
      }
    }
  }

  lemma RegularObject(t: Value, keys: seq<string>, limits: Limits, depth: nat)
    requires t.Obj? && IsListing(keys, t.fields) && IsExactDataRecord(t)
    ensures IsRegular(t, limits, depth) <==> AllRegular(ValuesAt(keys, t.fields), limits, depth - 1)
  {
    RegularListing(t.fields, keys, limits, depth - 1);
  }

  lemma RegularArray(items: seq<Value>, limits: Limits, depth: nat)
    ensures IsRegular(Arr(items), limits, depth) <==>
            |items| <= limits.maximumArrayItemsPerArray && AllRegular(items, limits, depth - 1)
  {
  }

  /** An object is admitted exactly when its values, listed, are. */
  lemma ObjectIsAdmitted(t: Value, keys: seq<string>, limits: Limits, depth: nat, spent: Counts)
    requires t.Obj? && IsListing(keys, t.fields) && IsExactDataRecord(t) && depth <= limits.maximumDepth
    ensures CountsOf(t) == Plus(Counts(1, |t.fields|, 0), CountsOfAll(ValuesAt(keys, t.fields)))
    ensures IsAdmitted(t, limits, depth, spent) <==>
            AllAdmitted(ValuesAt(keys, t.fields), limits, depth + 1, Plus(spent, Counts(1, |t.fields|, 0)))
  {
    hide CountsOf, IsRegular, AllRegular, CountsOfAll;
    CountsOfObject(t, keys);
    RegularObject(t, keys, limits, limits.maximumDepth - depth);
  }

  lemma ArrayIsAdmitted(items: seq<Value>, limits: Limits, depth: nat, spent: Counts)
    requires depth <= limits.maximumDepth
    ensures CountsOf(Arr(items)) == Plus(Counts(1, 0, |items|), CountsOfAll(items))
    ensures IsAdmitted(Arr(items), limits, depth, spent) <==>
            && |items| <= limits.maximumArrayItemsPerArray
            && AllAdmitted(items, limits, depth + 1, Plus(spent, Counts(1, 0, |items|)))
  {
    hide CountsOf, IsRegular, AllRegular, CountsOfAll;
    CountsOfArray(items);
    RegularArray(items, limits, limits.maximumDepth - depth);
  }

  // ---------------------------------------------------------------------------
  // Ancestors
  // ---------------------------------------------------------------------------

  /** Whatever tree `a` unfolds to has the tree of `r` strictly inside it. */
  ghost predicate IsAbove(g: Graph, a: Ref, r: Ref) {
    forall ta :: Unfolds(g, a, ta) ==> exists t :: Unfolds(g, r, t) && t < ta
  }

  lemma OneTree(g: Graph, r: Ref, t: Value)
    requires Unfolds(g, r, t)
    ensures forall u :: Unfolds(g, r, u) ==> u == t
  {
    forall u | Unfolds(g, r, u) ensures u == t {
      UnfoldsToOne(g, r, t, u);
    }
  }

  /** A reference that comes back to itself has no finite tree. */
  lemma CyclesDoNotUnfold(g: Graph, r: Ref)
    requires IsAbove(g, r, r)
    ensures forall t :: !Unfolds(g, r, t)
  {
    hide Unfolds;
    forall t, u | Unfolds(g, r, t) && Unfolds(g, r, u) ensures t == u {
      UnfoldsToOne(g, r, t, u);
    }
  }

  ghost predicate AllBelow(g: Graph, ancestors: set<Ref>, r: Ref) {
    forall a :: a in ancestors ==> IsAbove(g, a, r)
  }

  lemma ChildIsBelow(g: Graph, r: Ref, child: Ref, ancestors: set<Ref>)
    requires At(g, r).ArrCell? ==> child in At(g, r).items
    requires At(g, r).ObjCell? ==> child in At(g, r).fields.Values
    requires At(g, r).ArrCell? || At(g, r).ObjCell?
    requires AllBelow(g, ancestors, r)
    ensures AllBelow(g, ancestors + {r}, child)
  {
    forall t | Unfolds(g, r, t)
      ensures exists u :: Unfolds(g, child, u) && u < t
    {
      if At(g, r).ArrCell? {
        var i :| 0 <= i < |At(g, r).items| && At(g, r).items[i] == child;
        assert Unfolds(g, child, t.items[i]);
      } else {
        var k :| k in At(g, r).fields && At(g, r).fields[k] == child;
        assert Unfolds(g, child, t.fields[k]);
      }
    }
    forall a | a in ancestors ensures IsAbove(g, a, child) {
      forall ta | Unfolds(g, a, ta)
        ensures exists u :: Unfolds(g, child, u) && u < ta
      {
        var t :| Unfolds(g, r, t) && t < ta;
      }
    }
  }

  // ---------------------------------------------------------------------------
  // The traversal
  // ---------------------------------------------------------------------------

  class InspectionBudget {
    var nodes: nat
    var properties: nat
    var arrayItems: nat
    var ancestors: set<Ref>

    constructor ()
      ensures Spent() == Counts(0, 0, 0) && ancestors == {}
    {
      nodes, properties, arrayItems, ancestors := 0, 0, 0, {};
    }

    function Spent(): Counts
      reads this
    {
      Counts(nodes, properties, arrayItems)
    }
  }

  ghost predicate UnfoldsAll(g: Graph, refs: seq<Ref>, ts: seq<Value>) {
    |refs| == |ts| && forall i :: 0 <= i < |refs| ==> Unfolds(g, refs[i], ts[i])
  }

  /** The values under `refs` are refused together, whatever they unfold to. */
  ghost predicate AllRefused(g: Graph, refs: seq<Ref>, limits: Limits, depth: nat, spent: Counts) {
    forall ts :: UnfoldsAll(g, refs, ts) ==> !AllAdmitted(ts, limits, depth, spent)
  }

  ghost predicate IsRefused(g: Graph, r: Ref, limits: Limits, depth: nat, spent: Counts) {
    forall t :: Unfolds(g, r, t) ==> !IsAdmitted(t, limits, depth, spent)
  }

  lemma ArrayUnfolds(g: Graph, r: Ref, t: Value)
    requires At(g, r).ArrCell?
    ensures Unfolds(g, r, t) <==> t.Arr? && UnfoldsAll(g, At(g, r).items, t.items)
  {
  }

  lemma ObjectUnfolds(g: Graph, r: Ref, keys: seq<string>, t: Value)
    requires At(g, r).ObjCell? && IsListing(keys, At(g, r).fields)
    ensures Unfolds(g, r, t) <==>
            && t.Obj? && t.fields.Keys == At(g, r).fields.Keys
            && UnfoldsAll(g, ValuesAt(keys, At(g, r).fields), ValuesAt(keys, t.fields))
  {
    var fields := At(g, r).fields;
    if t.Obj? && t.fields.Keys == fields.Keys {
      var refs, ts := ValuesAt(keys, fields), ValuesAt(keys, t.fields);
      if UnfoldsAll(g, refs, ts) {
        forall k | k in fields ensures Unfolds(g, fields[k], t.fields[k]) {
          var i :| 0 <= i < |keys| && keys[i] == k;
          assert Unfolds(g, refs[i], ts[i]);
        }
      }
    }
  }

  lemma ArrayIsRefused(g: Graph, r: Ref, limits: Limits, depth: nat, spent: Counts)
    requires At(g, r).ArrCell? && depth <= limits.maximumDepth
    requires var items := At(g, r).items;
             |items| > limits.maximumArrayItemsPerArray ||
             AllRefused(g, items, limits, depth + 1, Plus(spent, Counts(1, 0, |items|)))
    ensures IsRefused(g, r, limits, depth, spent)
  {
    forall t | Unfolds(g, r, t) ensures !IsAdmitted(t, limits, depth, spent) {
      ArrayUnfolds(g, r, t);
      ArrayIsAdmitted(t.items, limits, depth, spent);
    }
  }

  lemma ObjectIsRefused(g: Graph, r: Ref, keys: seq<string>, limits: Limits, depth: nat, spent: Counts)
    requires At(g, r).ObjCell? && depth <= limits.maximumDepth && IsListing(keys, At(g, r).fields)
    requires var fields := At(g, r).fields;
             AllRefused(g, ValuesAt(keys, fields), limits, depth + 1, Plus(spent, Counts(1, |fields|, 0)))
    ensures IsRefused(g, r, limits, depth, spent)
  {
    var fields := At(g, r).fields;
    forall t | Unfolds(g, r, t) ensures !IsAdmitted(t, limits, depth, spent) {
      ObjectUnfolds(g, r, keys, t);
      assert |t.fields| == |t.fields.Keys| == |fields.Keys| == |fields|;
      if IsExactDataRecord(t) {
        ObjectIsAdmitted(t, keys, limits, depth, spent);
      }
    }
  }

  lemma UnsafeKeyIsRefused(g: Graph, r: Ref, limits: Limits, depth: nat, spent: Counts)
    requires At(g, r).ObjCell? && exists k :: k in At(g, r).fields && IsUnsafeObjectKey(k)
    ensures IsRefused(g, r, limits, depth, spent)
  {
    forall t | Unfolds(g, r, t) ensures !IsAdmitted(t, limits, depth, spent) {
      assert !IsExactDataRecord(t);
    }
  }

  /** What is spent before the children are looked at already tells. */
  lemma OverspentIsRefused(g: Graph, refs: seq<Ref>, limits: Limits, depth: nat, spent: Counts)
    requires !IsWithin(spent, limits)
    ensures AllRefused(g, refs, limits, depth, spent)
  {
  }

  /** One refused value, after those accepted before it, refuses the list. */
  lemma OneRefusedRefusesAll(g: Graph, refs: seq<Ref>, trees: seq<Value>, limits: Limits, depth: nat, spent: Counts)
    requires |trees| < |refs| && UnfoldsAll(g, refs[..|trees|], trees)
    requires IsRefused(g, refs[|trees|], limits, depth, Plus(spent, CountsOfAll(trees)))
    ensures AllRefused(g, refs, limits, depth, spent)
  {
    hide Unfolds, CountsOf, IsRegular, CountsOfAll;
    var n := |trees|;
    forall ts | UnfoldsAll(g, refs, ts) ensures !AllAdmitted(ts, limits, depth, spent) {
      forall i | 0 <= i < n ensures ts[i] == trees[i] {
        UnfoldsToOne(g, refs[..n][i], ts[i], trees[i]);
      }
      assert ts[..n] == trees;
      assert ts[..n + 1] == trees + [ts[n]];
      CountsOfOneMore(trees, ts[n]);
      CountsOfAllGrows(ts, n + 1);
      assert Unfolds(g, refs[n], ts[n]);
    }
  }

  /** The source's `visit`: counters checked as they grow, a set of the objects being
      visited.  It accepts exactly the values with an admissible finite tree. */
  method Visit(g: Graph, limits: Limits, r: Ref, depth: nat, budget: InspectionBudget)
    returns (ok: bool, tree: Value)
    requires IsWithin(budget.Spent(), limits) && depth <= limits.maximumDepth + 1
    requires AllBelow(g, budget.ancestors, r)
    modifies budget
    ensures budget.ancestors == old(budget.ancestors)
    ensures ok ==> Unfolds(g, r, tree) && IsAdmitted(tree, limits, depth, old(budget.Spent()))
    ensures ok ==> budget.Spent() == Plus(old(budget.Spent()), CountsOf(tree))
    ensures !ok ==> IsRefused(g, r, limits, depth, old(budget.Spent()))
    decreases limits.maximumDepth + 1 - depth, 1
  {
    tree := Null;
    budget.nodes := budget.nodes + 1;
    if budget.nodes > limits.maximumNodes || depth > limits.maximumDepth {
      return false, tree;
    }
    match At(g, r)
    case NullCell => return true, Null;
    case BoolCell(b) => return true, Bool(b);
    case StrCell(s) => return true, Str(s);
    case NumCell(n) => return IsSafeInteger(n), Num(n);
    case OtherCell => return false, tree;
    case ArrCell(items) =>
      if r in budget.ancestors {
        CyclesDoNotUnfold(g, r);
        return false, tree;
      }
      ok, tree := VisitArray(g, limits, r, depth, budget);
    case ObjCell(fields) =>
      if r in budget.ancestors {
        CyclesDoNotUnfold(g, r);
        return false, tree;
      }
      ok, tree := VisitObject(g, limits, r, depth, budget);
  }

  method VisitArray(g: Graph, limits: Limits, r: Ref, depth: nat, budget: InspectionBudget)
    returns (ok: bool, tree: Value)
    requires At(g, r).ArrCell? && depth <= limits.maximumDepth && r !in budget.ancestors
    requires IsWithin(budget.Spent(), limits) && budget.nodes >= 1
    requires AllBelow(g, budget.ancestors, r)
    modifies budget
    ensures budget.ancestors == old(budget.ancestors)
    ensures var before := old(budget.Spent()).(nodes := old(budget.nodes) - 1);
            && (ok ==> Unfolds(g, r, tree) && IsAdmitted(tree, limits, depth, before))
            && (ok ==> budget.Spent() == Plus(before, CountsOf(tree)))
            && (!ok ==> IsRefused(g, r, limits, depth, before))
    decreases limits.maximumDepth + 1 - depth, 0
  {
    tree := Null;
    var items := At(g, r).items;
    ghost var before := budget.Spent().(nodes := budget.nodes - 1);
    budget.arrayItems := budget.arrayItems + |items|;
    ghost var spent := Plus(before, Counts(1, 0, |items|));
    if |items| > limits.maximumArrayItemsPerArray || budget.arrayItems > limits.maximumArrayItems {
      if budget.arrayItems > limits.maximumArrayItems {
        OverspentIsRefused(g, items, limits, depth + 1, spent);
      }
      ArrayIsRefused(g, r, limits, depth, before);
      return false, tree;
    }
    forall i | 0 <= i < |items| ensures AllBelow(g, budget.ancestors + {r}, items[i]) {
      ChildIsBelow(g, r, items[i], budget.ancestors);
    }
    budget.ancestors := budget.ancestors + {r};
    var trees;
    ok, trees := VisitAll(g, limits, items, depth + 1, budget);
    budget.ancestors := budget.ancestors - {r};
    if ok {
      tree := Arr(trees);
      ArrayUnfolds(g, r, tree);
      ArrayIsAdmitted(trees, limits, depth, before);
    } else {
      ArrayIsRefused(g, r, limits, depth, before);
    }
  }

  method VisitObject(g: Graph, limits: Limits, r: Ref, depth: nat, budget: InspectionBudget)
    returns (ok: bool, tree: Value)
    requires At(g, r).ObjCell? && depth <= limits.maximumDepth && r !in budget.ancestors
    requires IsWithin(budget.Spent(), limits) && budget.nodes >= 1
    requires AllBelow(g, budget.ancestors, r)
    modifies budget
    ensures budget.ancestors == old(budget.ancestors)
    ensures var before := old(budget.Spent()).(nodes := old(budget.nodes) - 1);
            && (ok ==> Unfolds(g, r, tree) && IsAdmitted(tree, limits, depth, before))
            && (ok ==> budget.Spent() == Plus(before, CountsOf(tree)))
            && (!ok ==> IsRefused(g, r, limits, depth, before))
    decreases limits.maximumDepth + 1 - depth, 0
  {
    hide Unfolds, CountsOf, CountsOfAll, UnfoldsAll, IsAdmitted, AllAdmitted, IsRefused, AllRefused, AllBelow;
    tree := Null;
    var fields := At(g, r).fields;
    ghost var before := budget.Spent().(nodes := budget.nodes - 1);
    if exists k :: k in fields && IsUnsafeObjectKey(k) {
      UnsafeKeyIsRefused(g, r, limits, depth, before);
      return false, tree;
    }
    var keys := KeysOf(fields);
    var values := ValuesAt(keys, fields);
    budget.properties := budget.properties + |fields|;
    ghost var spent := Plus(before, Counts(1, |fields|, 0));
    if budget.properties > limits.maximumProperties {
      OverspentIsRefused(g, values, limits, depth + 1, spent);
      ObjectIsRefused(g, r, keys, limits, depth, before);
      return false, tree;
    }
    ValuesAreBelow(g, r, keys, budget.ancestors);
    budget.ancestors := budget.ancestors + {r};
    var trees;
    ok, trees := VisitAll(g, limits, values, depth + 1, budget);
    budget.ancestors := budget.ancestors - {r};
    if ok {
      tree := Rebuilt(keys, trees);
      RebuiltIsAdmitted(g, r, keys, trees, limits, depth, before);
    } else {
      ObjectIsRefused(g, r, keys, limits, depth, before);
    }
  }

  lemma ValuesAreBelow(g: Graph, r: Ref, keys: seq<string>, ancestors: set<Ref>)
    requires At(g, r).ObjCell? && IsListing(keys, At(g, r).fields) && AllBelow(g, ancestors, r)
    ensures var values := ValuesAt(keys, At(g, r).fields);
            forall i :: 0 <= i < |values| ==> AllBelow(g, ancestors + {r}, values[i])
  {
    hide AllBelow;
    var values := ValuesAt(keys, At(g, r).fields);
    forall i | 0 <= i < |values| ensures AllBelow(g, ancestors + {r}, values[i]) {
      assert values[i] == At(g, r).fields[keys[i]];
      ChildIsBelow(g, r, values[i], ancestors);
    }
  }

  lemma RebuiltIsAdmitted(g: Graph, r: Ref, keys: seq<string>, trees: seq<Value>, limits: Limits, depth: nat,
                          before: Counts)
    requires At(g, r).ObjCell? && depth <= limits.maximumDepth && IsListing(keys, At(g, r).fields)
    requires forall k :: k in At(g, r).fields ==> !IsUnsafeObjectKey(k)
    requires |keys| == |trees| && UnfoldsAll(g, ValuesAt(keys, At(g, r).fields), trees)
    requires AllAdmitted(trees, limits, depth + 1, Plus(before, Counts(1, |At(g, r).fields|, 0)))
    ensures var t := Rebuilt(keys, trees);
            && Unfolds(g, r, t) && IsAdmitted(t, limits, depth, before)
            && CountsOf(t) == Plus(Counts(1, |At(g, r).fields|, 0), CountsOfAll(trees))
  {
    hide Unfolds, CountsOf, CountsOfAll, UnfoldsAll, IsAdmitted, AllAdmitted, Rebuilt;
    var t := Rebuilt(keys, trees);
    RebuiltUnfolds(g, r, keys, trees);
    assert forall k :: k in t.fields <==> k in At(g, r).fields;
    ObjectIsAdmitted(t, keys, limits, depth, before);
  }

  function Rebuilt(keys: seq<string>, trees: seq<Value>): Value
    requires |keys| == |trees| && IsDistinctList(keys)
  {
    Obj(map i | 0 <= i < |keys| :: keys[i] := trees[i])
  }

  lemma RebuiltListing(keys: seq<string>, trees: seq<Value>)
    requires |keys| == |trees| && IsDistinctList(keys)
    ensures Rebuilt(keys, trees).fields.Keys == Named(keys)
    ensures forall i :: 0 <= i < |keys| ==> Rebuilt(keys, trees).fields[keys[i]] == trees[i]
  {
  }

  lemma RebuiltUnfolds(g: Graph, r: Ref, keys: seq<string>, trees: seq<Value>)
    requires At(g, r).ObjCell? && IsListing(keys, At(g, r).fields)
    requires UnfoldsAll(g, ValuesAt(keys, At(g, r).fields), trees)
    ensures var t := Rebuilt(keys, trees);
            && Unfolds(g, r, t) && t.Obj? && t.fields.Keys == At(g, r).fields.Keys
            && |t.fields| == |At(g, r).fields| && ValuesAt(keys, t.fields) == trees
  {
    var t := Rebuilt(keys, trees);
    hide Unfolds, UnfoldsAll, Rebuilt;
    RebuiltListing(keys, trees);
    assert ValuesAt(keys, t.fields) == trees;
    assert Named(keys) == At(g, r).fields.Keys;
    assert |t.fields| == |t.fields.Keys| == |At(g, r).fields.Keys| == |At(g, r).fields|;
    ObjectUnfolds(g, r, keys, t);
  }

  /** `every(visit)` over the items of an array or the values of an object. */
  method VisitAll(g: Graph, limits: Limits, refs: seq<Ref>, depth: nat, budget: InspectionBudget)
    returns (ok: bool, trees: seq<Value>)
    requires IsWithin(budget.Spent(), limits) && depth <= limits.maximumDepth + 1
    requires forall i :: 0 <= i < |refs| ==> AllBelow(g, budget.ancestors, refs[i])
    modifies budget
    ensures budget.ancestors == old(budget.ancestors)
    ensures ok ==> |trees| == |refs| && UnfoldsAll(g, refs, trees) && AllAdmitted(trees, limits, depth, old(budget.Spent()))
    ensures ok ==> budget.Spent() == Plus(old(budget.Spent()), CountsOfAll(trees))
    ensures !ok ==> AllRefused(g, refs, limits, depth, old(budget.Spent()))
    decreases limits.maximumDepth + 1 - depth, 2
  {
    hide Unfolds, CountsOf, IsRegular, IsRefused, AllRefused, AllBelow;
    ghost var spent := budget.Spent();
    trees := [];
    while |trees| < |refs|
      invariant |trees| <= |refs| && budget.ancestors == old(budget.ancestors)
      invariant UnfoldsAll(g, refs[..|trees|], trees)
      invariant AllAdmitted(trees, limits, depth, spent)
      invariant budget.Spent() == Plus(spent, CountsOfAll(trees))
    {
      var child;
      ok, child := Visit(g, limits, refs[|trees|], depth, budget);
      if !ok {
        OneRefusedRefusesAll(g, refs, trees, limits, depth, spent);
        return false, trees;
      }
      CountsOfOneMore(trees, child);
      trees := trees + [child];
    }
    assert refs[..|trees|] == refs;
    ok := true;
  }

  /** The tree is within every limit, its canonical text included. */
  ghost predicate IsBounded(t: Value, limits: Limits, textBytes: Value -> nat) {
    IsAdmitted(t, limits, 0, Counts(0, 0, 0)) && textBytes(t) <= limits.maximumBytes
  }

  ghost predicate IsUnbounded(g: Graph, r: Ref, limits: Limits, textBytes: Value -> nat) {
    forall t :: Unfolds(g, r, t) ==> !IsBounded(t, limits, textBytes)
  }

  lemma RefusedIsUnbounded(g: Graph, r: Ref, limits: Limits, textBytes: Value -> nat)
    requires IsRefused(g, r, limits, 0, Counts(0, 0, 0))
    ensures IsUnbounded(g, r, limits, textBytes)
  {
    hide Unfolds, IsAdmitted;
  }

  lemma LongTextIsUnbounded(g: Graph, r: Ref, limits: Limits, textBytes: Value -> nat, tree: Value)
    requires Unfolds(g, r, tree) && textBytes(tree) > limits.maximumBytes
    ensures IsUnbounded(g, r, limits, textBytes)
  {
    hide Unfolds, IsAdmitted;
    OneTree(g, r, tree);
  }

  /** `inspectBoundedJson`: the canonical text stands for the value it encodes, and
      `textBytes` for its encoded length. */
  method InspectBoundedJson(g: Graph, r: Ref, limits: Limits, textBytes: Value -> nat)
    returns (ok: bool, tree: Value)
    ensures ok ==> Unfolds(g, r, tree) && IsBounded(tree, limits, textBytes)
    ensures !ok ==> IsUnbounded(g, r, limits, textBytes)
  {
    hide Unfolds, IsAdmitted, IsRefused, IsUnbounded, AllBelow, CountsOf;
    var budget := new InspectionBudget();
    NothingIsAbove(g, r);
    ok, tree := Visit(g, limits, r, 0, budget);
    if !ok {
      RefusedIsUnbounded(g, r, limits, textBytes);
    } else if textBytes(tree) > limits.maximumBytes {
      LongTextIsUnbounded(g, r, limits, textBytes, tree);
      ok := false;
    }
  }

  lemma NothingIsAbove(g: Graph, r: Ref)
    ensures AllBelow(g, {}, r)
  {
  }
}
