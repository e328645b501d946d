/** JSON values as the evaluation runner sees them.  Two values have the same canonical
    text exactly when they are equal here, because an object is a map. */
module Json {

  const MAXIMUM_SAFE_INTEGER: int := 9007199254740991

  datatype Value =
    | Null
    | Bool(b: bool)
    | Num(n: real)
    | Str(s: string)
    | Arr(items: seq<Value>)
    | Obj(fields: map<string, Value>)

  predicate IsSafeInteger(r: real) {
    r.Floor as real == r && -MAXIMUM_SAFE_INTEGER <= r.Floor <= MAXIMUM_SAFE_INTEGER
  }

  /** The one name that would write to a prototype instead of to the object. */
  predicate IsUnsafeObjectKey(key: string) {
    key == "__proto__"
  }

  /** A plain object none of whose own keys is unsafe. */
  predicate IsExactDataRecord(v: Value) {
    v.Obj? && forall k :: k in v.fields ==> !IsUnsafeObjectKey(k)
  }

  /** Some key of an object, the same for the same set. */
  ghost function PickKey(keys: set<string>): string
    requires keys != {}
  {
    var k :| k in keys; k
  }
}

module Wrappers {

  datatype Option<+T> = None | Some(value: T)
}
