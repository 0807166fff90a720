/** The record an approval protects, the digest that binds it, and stored arguments read back. */
module ProtectedRecord {
  import opened JsonValues

  datatype Value = Text(text: string) | Number(number: int)

  type Arguments = map<string, Value>

  /** `address` is the canonical text of the target's address. */
  datatype Scope = Scope(
    sessionId: string, targetId: string, address: string, proposalId: string,
    actionName: string, arguments: Arguments)

  /** A digest is a tagged copy of the bytes it was computed from: equal digests have equal
      preimages, which is the collision freedom the protocol relies on. */
  datatype Digest = Sha256(preimage: string)

  ghost predicate CollisionFree(hash: Scope -> Digest) {
    forall a, b :: hash(a) == hash(b) ==> a == b
  }

  // ---------------------------------------------------------------- stored arguments

  type Loaded = map<string, Json>

  function Written(value: Value): Json {
    match value
    case Text(text) => Str(text)
    case Number(n) => Int(n)
  }

  function Stored(arguments: Arguments): Loaded {
    map k | k in arguments :: Written(arguments[k])
  }

  /** Equality of a loaded value and an argument as the program's `==` has it: 80.0 equals 80, and
      true equals 1. */
  predicate LooselyEqual(loaded: Json, value: Value) {
    match loaded
    case Str(s) => value == Text(s)
    case Int(n) => value == Number(n)
    case Float(r) => value.Number? && r == value.number as real
    case Bool(b) => value == Number(if b then 1 else 0)
    case _ => false
  }

  predicate Matches(loaded: Loaded, arguments: Arguments) {
    loaded.Keys == arguments.Keys && forall k <- arguments :: LooselyEqual(loaded[k], arguments[k])
  }

  /** A text equals only itself; a number equals itself however it is written, and a truth value if it is
      zero or one. */
  lemma LooseEqualityIs(loaded: Json, text: string, n: int)
    ensures LooselyEqual(loaded, Text(text)) <==> loaded == Str(text)
    ensures LooselyEqual(loaded, Number(n)) <==>
      || loaded == Int(n) || loaded == Float(n as real)
      || (n == 1 && loaded == Bool(true)) || (n == 0 && loaded == Bool(false))
  {
  }

  /** Stored arguments match the validated ones exactly when they have the same names and each value equals
      its argument in that sense. */
  lemma MatchesIs(loaded: Loaded, arguments: Arguments)
    ensures Matches(loaded, arguments) <==>
      && (forall k <- loaded :: k in arguments) && (forall k <- arguments :: k in loaded)
      && (forall k <- arguments ::
            match arguments[k]
            case Text(text) => loaded[k] == Str(text)
            case Number(n) =>
              || loaded[k] == Int(n) || loaded[k] == Float(n as real)
              || (n == 1 && loaded[k] == Bool(true)) || (n == 0 && loaded[k] == Bool(false)))
  {
    forall k | k in loaded && k in arguments
      ensures LooselyEqual(loaded[k], arguments[k]) <==>
        match arguments[k]
        case Text(text) => loaded[k] == Str(text)
        case Number(n) =>
          || loaded[k] == Int(n) || loaded[k] == Float(n as real)
          || (n == 1 && loaded[k] == Bool(true)) || (n == 0 && loaded[k] == Bool(false))
    {
      match arguments[k] {
        case Text(text) => LooseEqualityIs(loaded[k], text, 0);
        case Number(n) => LooseEqualityIs(loaded[k], "", n);
      }
    }
  }

  predicate IsExact(loaded: Loaded) {
    forall k <- loaded :: loaded[k].Str? || loaded[k].Int?
  }

  /** What matches is what was stored, exactly when its numbers are whole numbers written as such. */
  lemma MatchIsStoredIffExact(loaded: Loaded, arguments: Arguments)
    requires Matches(loaded, arguments)
    ensures loaded == Stored(arguments) <==> IsExact(loaded)
  {
  }
}
