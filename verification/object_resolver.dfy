/** `ObjectResolverContract`: reads each field from an arbitrary object's properties. */
module ObjectResolver {
  import opened PhpValue
  import opened Reflection

  /** `$object->$name` is readable from outside the object: it is not a
      declared non-public property. Undeclared (dynamic) properties are public. */
  predicate Accessible(obj: Instance, name: string) {
    match PropertyOf(obj.cls, name)
    case None => true
    case Some(p) => p.visibility == Public
  }

  /** `getPropertyValue`: `$this->object->$name ?? null`. The `??` turns an
      unset, uninitialized, nonexistent or inaccessible property into `null`
      instead of an error. */
  function GetPropertyValue(obj: Instance, reflect: Reflect, name: string): (v: Value)
    ensures Accessible(obj, name) && name in obj.state ==> v == obj.state[name]
    ensures !Accessible(obj, name) || name !in obj.state ==> v == Null
  {
    if Accessible(obj, name) then Lookup(obj.state, name) else Null
  }

  /** The fetch depends on the object and the name only. */
  lemma {:induction false} IgnoresReflect(obj: Instance, r: Reflect, r': Reflect, name: string)
    ensures GetPropertyValue(obj, r, name) == GetPropertyValue(obj, r', name)
  {
  }
}
