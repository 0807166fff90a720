/** JSON values as a parser returns them. */
module JsonValues {

  /** Whole numbers written without a fraction or exponent are Int; every other number is Float. */
  datatype Json =
    | Null
    | Bool(b: bool)
    | Int(n: int)
    | Float(r: real)
    | Str(s: string)
    | Arr(items: seq<Json>)
    | Obj(fields: map<string, Json>)
}
