/**
 * PHP values as the resolution engine sees them.
 *
 * The engine never inspects a value beyond asking whether it is `null`,
 * so every value other than a boolean, an integer or a string is kept
 * opaque. PHP makes no difference between a variable holding `null` and
 * one that is absent (`isset`, `??`), and neither does this model: `Null`
 * stands for both.
 */
module PhpValue {

  datatype Value = Null | Bool(b: bool) | Int(i: int) | Str(s: string) | Opaque(id: nat)

  /** PHP's `isset` on a variable or property holding `v`. */
  predicate IsSet(v: Value) {
    v != Null
  }

  /** PHP's null-coalescing `a ?? b`. */
  function Coalesce(a: Value, b: Value): Value {
    if IsSet(a) then a else b
  }

  /** `$m[$k] ?? null` on an array with string keys: a missing key reads as `null`. */
  function Lookup(m: map<string, Value>, k: string): Value {
    Coalesce(if k in m then m[k] else Null, Null)
  }

  /** A lookup misses, present-with-null and absent alike, exactly when it yields `Null`. */
  lemma {:induction false} LookupMissIsNull(m: map<string, Value>, k: string)
    ensures Lookup(m, k) == Null <==> k !in m || m[k] == Null
    ensures Lookup(m, k) != Null ==> k in m && Lookup(m, k) == m[k]
  {
  }
}
