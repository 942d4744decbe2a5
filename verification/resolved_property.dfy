/**
 * The outcome of resolving one constructor parameter: its name, the value
 * fetched from the source, its declared type name and its declared default.
 */
module ResolvedProperties {
  import opened Wrappers
  import opened PhpValue

  /** `typ` is the PHP `?string` type name; `None` is an untyped parameter. */
  datatype ResolvedProperty = ResolvedProperty(name: string, value: Value, typ: Option<string>, default: Value)

  /** The four declared fields a caller may assign through the collection's `setValue`. */
  datatype FieldUpdate =
    | SetName(newName: string)
    | SetValue(newValue: Value)
    | SetType(newType: Option<string>)
    | SetDefault(newDefault: Value)

  /** `ResolvedProperty::make`; type and default are `null` unless given. */
  function Make(name: string, value: Value, typ: Option<string> := None, default: Value := Null): (p: ResolvedProperty)
    ensures p.name == name && p.value == value
    ensures p.typ == typ && p.default == default
  {
    ResolvedProperty(name, value, typ, default)
  }

  /** `getValue`: the effective value, `value ?? default`. */
  function GetValue(p: ResolvedProperty): (r: Value)
    ensures IsSet(p.value) ==> r == p.value
    ensures !IsSet(p.value) ==> r == p.default
    ensures r == Null <==> p.value == Null && p.default == Null
  {
    Coalesce(p.value, p.default)
  }

  /** `isDefault`: no value was fetched but a default is declared. */
  function IsDefault(p: ResolvedProperty): (r: bool)
    ensures r <==> !IsSet(p.value) && IsSet(p.default)
    ensures r ==> GetValue(p) == p.default && GetValue(p) != Null
  {
    !IsSet(p.value) && IsSet(p.default)
  }

  /** `isType`: strict comparison with the stored type name, never true for an untyped field. */
  function IsType(p: ResolvedProperty, t: string): (r: bool)
    ensures r <==> p.typ == Some(t)
    ensures p.typ.None? ==> !r
  {
    p.typ == Some(t)
  }

  /** `isName`: strict comparison with the stored name. */
  function IsName(p: ResolvedProperty, n: string): (r: bool)
    ensures r <==> p.name == n
  {
    p.name == n
  }

  /** `$resolvedProperty->$key = $value` for one of the four declared fields. */
  function Assign(p: ResolvedProperty, u: FieldUpdate): (q: ResolvedProperty)
    ensures q.name == (if u.SetName? then u.newName else p.name)
    ensures q.value == (if u.SetValue? then u.newValue else p.value)
    ensures q.typ == (if u.SetType? then u.newType else p.typ)
    ensures q.default == (if u.SetDefault? then u.newDefault else p.default)
  {
    match u
    case SetName(n) => p.(name := n)
    case SetValue(v) => p.(value := v)
    case SetType(t) => p.(typ := t)
    case SetDefault(d) => p.(default := d)
  }

  /** A field made with only a name and a value has no type, no default, and its value is its effective value. */
  lemma {:induction false} MakeOmittedArguments(name: string, value: Value)
    ensures Make(name, value).typ.None?
    ensures Make(name, value).default == Null
    ensures GetValue(Make(name, value)) == value
    ensures !IsDefault(Make(name, value))
  {
  }
}
