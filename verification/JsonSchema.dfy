/** JSON values and the fragment of JSON Schema (draft 2020-12) that the answer format uses. */
module JsonSchema {
  import opened Wrappers
  import opened JsonValues

  /** Objects allow no property beyond those named. */
  datatype Schema =
    | Enum(values: seq<Json>)
    | Const(value: Json)
    | NullType
    | StringType(minLength: nat, maxLength: nat)
    | IntegerType(minimum: Option<int>, maximum: Option<int>)
    | ArrayType(items: Option<Schema>, minItems: nat, maxItems: nat)
    | ObjectType(properties: map<string, Schema>, required: set<string>)
    | AnyOf(shapes: seq<Schema>)

  predicate IsNumber(v: Json) {
    v.Int? || v.Float?
  }

  function AsReal(v: Json): real
    requires IsNumber(v)
  {
    if v.Int? then v.n as real else v.r
  }

  /** Equality of scalars as the specification has it: numbers are equal when their values are. */
  predicate ScalarEqual(a: Json, b: Json) {
    if IsNumber(a) && IsNumber(b) then AsReal(a) == AsReal(b) else a == b
  }

  /** A number with a zero fraction is an integer, however it is written. */
  predicate IsInteger(v: Json) {
    v.Int? || (v.Float? && v.r == v.r.Floor as real)
  }

  predicate Accepts(schema: Schema, v: Json)
    decreases schema
  {
    match schema
    case Enum(values) => exists i | 0 <= i < |values| :: ScalarEqual(values[i], v)
    case Const(value) => ScalarEqual(value, v)
    case NullType => v.Null?
    case StringType(low, high) => v.Str? && low <= |v.s| <= high
    case IntegerType(low, high) =>
      && IsInteger(v)
      && (low.Some? ==> low.value as real <= AsReal(v))
      && (high.Some? ==> AsReal(v) <= high.value as real)
    case ArrayType(item, low, high) =>
      && v.Arr? && low <= |v.items| <= high
      && (item.Some? ==> forall i | 0 <= i < |v.items| :: Accepts(item.value, v.items[i]))
    case ObjectType(properties, required) =>
      && v.Obj?
      && required <= v.fields.Keys
      && v.fields.Keys <= properties.Keys
      && (forall k | k in properties && k in v.fields :: Accepts(properties[k], v.fields[k]))
    case AnyOf(shapes) => exists i | 0 <= i < |shapes| :: Accepts(shapes[i], v)
  }

  /** An integer to the schema is any number with a whole value within the bounds, however it is written. */
  lemma IntegersAreByValue(low: Option<int>, high: Option<int>, v: Json)
    ensures Accepts(IntegerType(low, high), v) <==>
      exists n: int :: (v == Int(n) || v == Float(n as real))
        && (low.Some? ==> low.value <= n) && (high.Some? ==> n <= high.value)
  {
    if Accepts(IntegerType(low, high), v) {
      var n := if v.Int? then v.n else v.r.Floor;
      assert v == Int(n) || v == Float(n as real);
    }
  }
}
