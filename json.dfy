/** JSON values as the store compares them. */
module Json {

  /** A property value: only numbers (integers), strings and booleans are modelled. */
  datatype Value = Int(i: int) | Str(s: string) | Bool(b: bool)

  /** A document: property name to value (JSON text is treated as the value itself). */
  type Doc = map<string, Value>

  /** `{...stored, ...update}`: a shallow merge in which the update wins. */
  function Merge(stored: Doc, update: Doc): (m: Doc)
    ensures m.Keys == stored.Keys + update.Keys
    ensures forall k | k in update :: m[k] == update[k]
    ensures forall k | k in stored && k !in update :: m[k] == stored[k]
  {
    stored + update
  }

  predicate SameType(a: Value, b: Value) {
    (a.Int? && b.Int?) || (a.Str? && b.Str?) || (a.Bool? && b.Bool?)
  }

  /** JavaScript's `<` on two strings: lexicographic by character code. */
  predicate StrLess(a: string, b: string)
    decreases |a|
  {
    if a == [] then b != []
    else if b == [] then false
    else if a[0] != b[0] then a[0] < b[0]
    else StrLess(a[1..], b[1..])
  }

  /**
   * JavaScript's `<` on two values of the same type (false < true for booleans).
   * Values of different types never compare.
   */
  predicate Less(a: Value, b: Value) {
    match (a, b)
    case (Int(x), Int(y)) => x < y
    case (Str(x), Str(y)) => StrLess(x, y)
    case (Bool(x), Bool(y)) => !x && y
    case _ => false
  }

  lemma {:induction false} StrLessTrichotomy(a: string, b: string)
    ensures StrLess(a, b) ==> a != b && !StrLess(b, a)
    ensures a != b ==> StrLess(a, b) || StrLess(b, a)
    decreases |a|
  {
    if a != [] && b != [] && a[0] == b[0] {
      StrLessTrichotomy(a[1..], b[1..]);
      assert a == [a[0]] + a[1..] && b == [b[0]] + b[1..];
    }
  }

  lemma {:induction false} StrLessTransitive(a: string, b: string, c: string)
    requires StrLess(a, b) && StrLess(b, c)
    ensures StrLess(a, c)
    decreases |a|
  {
    if a != [] && b != [] && c != [] && a[0] == b[0] && b[0] == c[0] {
      StrLessTransitive(a[1..], b[1..], c[1..]);
    }
  }

  /** On values of one type, `Less` is a strict total order. */
  lemma LessTrichotomy(a: Value, b: Value)
    requires SameType(a, b)
    ensures Less(a, b) ==> a != b && !Less(b, a)
    ensures a != b ==> Less(a, b) || Less(b, a)
  {
    if a.Str? && b.Str? {
      StrLessTrichotomy(a.s, b.s);
    }
  }

  lemma LessTransitive(a: Value, b: Value, c: Value)
    requires Less(a, b) && Less(b, c)
    ensures Less(a, c)
  {
    if a.Str? && b.Str? && c.Str? {
      StrLessTransitive(a.s, b.s, c.s);
    }
  }
}
