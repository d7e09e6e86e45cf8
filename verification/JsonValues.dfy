// Parsed JSON with numbers kept, as the specification validators need it, and is_json_scalar of
// src/nodes/llm/_experiment_design.py. A finite double is its real value; None is Infinity or NaN.
module JsonValues {
  import opened Common

  datatype Value =
    | Null
    | Bool(b: bool)
    | Int(i: int)
    | Float(x: Option<real>)
    | Str(s: string)
    | List(items: seq<Value>)
    | Obj(dict: Dict)

  type Dict = map<string, Value>

  // data.get(key)
  function Lookup(data: Dict, key: string): Value {
    if key in data then data[key] else Null
  }

  // 2**53
  const MAX_EXACT := 0x20_0000_0000_0000

  predicate IsScalar(v: Value) {
    match v
    case Int(i) => -MAX_EXACT <= i <= MAX_EXACT
    case Float(x) => x.Some?
    case List(_) => false
    case Obj(_) => false
    case _ => true
  }

  // A scalar or a flat list of scalars.
  predicate IsFlat(v: Value) {
    IsScalar(v) || (v.List? && forall k :: 0 <= k < |v.items| ==> IsScalar(v.items[k]))
  }

  // Values that compare equal share one key: 1, 1.0 and true do.
  function EqualityKey(v: Value): Value {
    match v
    case Bool(b) => Float(Some(if b then 1.0 else 0.0))
    case Int(i) => Float(Some(i as real))
    case _ => v
  }

  // What survives a round trip through any JSON reader, kind by kind.
  lemma ScalarsAre(b: bool, i: int, x: Option<real>, s: string, items: seq<Value>, dict: Dict)
    ensures IsScalar(Null) && IsScalar(Bool(b)) && IsScalar(Str(s))
    ensures IsScalar(Int(i)) <==> -9007199254740992 <= i <= 9007199254740992
    ensures IsScalar(Float(x)) <==> x.Some?
    ensures !IsScalar(List(items)) && !IsScalar(Obj(dict)) && !IsFlat(Obj(dict))
    ensures IsFlat(List(items)) <==> forall k :: 0 <= k < |items| ==> IsScalar(items[k])
    ensures IsFlat(Int(i)) <==> IsScalar(Int(i))
  {
  }

  predicate IsNumeric(v: Value) {
    v.Bool? || v.Int? || (v.Float? && v.x.Some?)
  }

  function NumberOf(v: Value): real
    requires IsNumeric(v)
  {
    match v
    case Bool(b) => if b then 1.0 else 0.0
    case Int(i) => i as real
    case Float(x) => x.value
  }

  // Python's == between two scalars: by value among numbers and booleans, else by being the same.
  predicate CompareEqual(a: Value, b: Value) {
    if IsNumeric(a) && IsNumeric(b) then NumberOf(a) == NumberOf(b) else a == b
  }

  lemma SharedKeyIff(a: Value, b: Value)
    ensures EqualityKey(a) == EqualityKey(b) <==> CompareEqual(a, b)
  {
  }
}
