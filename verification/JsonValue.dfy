/** The values of json-c. Of a double only its text is kept. */
module JsonValue {
  import opened Bytes
  import opened OrderedMap

  type Key = seq<byte>

  /** A json_object; Null is the NULL pointer. */
  datatype Value =
    | Null
    | Bool(b: bool)
    | Int(i: int)
    | Double(text: seq<byte>)
    | Str(s: seq<byte>)
    | Arr(items: seq<Value>)
    | Obj(fields: seq<Pair<Key, Value>>)

  const INT64_MIN: int := -0x8000_0000_0000_0000
  const INT64_MAX: int := 0x7fff_ffff_ffff_ffff

  /** What the library can hold, without doubles: 64-bit integers, C-string keys, each key once. */
  ghost predicate Storable(v: Value) {
    match v
    case Null => true
    case Bool(_) => true
    case Int(i) => INT64_MIN <= i <= INT64_MAX
    case Double(_) => false
    case Str(_) => true
    case Arr(items) => forall x :: x in items ==> Storable(x)
    case Obj(fields) =>
      && UniqueKeys(fields)
      && forall f :: f in fields ==> 0 !in f.key && Storable(f.value)
  }

  /** At most d levels are opened below v; an empty container opens none. */
  ghost predicate Nested(v: Value, d: nat) {
    match v
    case Arr(items) => items == [] || (d > 0 && forall x :: x in items ==> Nested(x, d - 1))
    case Obj(fields) => fields == [] || (d > 0 && forall f :: f in fields ==> Nested(f.value, d - 1))
    case _ => true
  }
}
