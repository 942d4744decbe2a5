/** `ArrayResolver`: reads each field from a plain PHP array. */
module ArrayResolver {
  import opened PhpValue
  import opened Reflection

  /** `getPropertyValue`: `$this->data[$name] ?? null`; the introspector is not consulted. */
  function GetPropertyValue(data: map<string, Value>, reflect: Reflect, name: string): (v: Value)
    ensures name in data ==> v == data[name]
    ensures name !in data ==> v == Null
  {
    Lookup(data, name)
  }

  /** The fetch depends on the data and the name only. */
  lemma {:induction false} IgnoresReflect(data: map<string, Value>, r: Reflect, r': Reflect, name: string)
    ensures GetPropertyValue(data, r, name) == GetPropertyValue(data, r', name)
  {
  }
}
