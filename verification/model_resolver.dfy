/** `ModelResolver`: reads each field from a relational model's flattened attributes. */
module ModelResolver {
  import opened PhpValue
  import opened Reflection

  /** A model, observed only through its `toArray()` flattening. */
  datatype Model = Model(flattened: map<string, Value>)

  /** `Model::toArray()`, a pure function of the model here. */
  function ToArray(m: Model): map<string, Value> {
    m.flattened
  }

  /** `getPropertyValue`: `$this->model->toArray()[$name] ?? null`, flattening afresh on every call. */
  function GetPropertyValue(model: Model, reflect: Reflect, name: string): (v: Value)
    ensures name in ToArray(model) ==> v == ToArray(model)[name]
    ensures name !in ToArray(model) ==> v == Null
  {
    var attributes := ToArray(model);
    Lookup(attributes, name)
  }

  /** The fetch depends on the model and the name only. */
  lemma {:induction false} IgnoresReflect(model: Model, r: Reflect, r': Reflect, name: string)
    ensures GetPropertyValue(model, r, name) == GetPropertyValue(model, r', name)
  {
  }
}
