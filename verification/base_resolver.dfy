/**
 * `BaseResolverContract`: the resolution loop shared by every resolver. For
 * each constructor parameter, in declaration order, it fetches a value from
 * the resolver's backend and pushes one resolved property.
 */
module BaseResolver {
  import opened Wrappers
  import opened PhpValue
  import opened Reflection
  import opened ResolvedProperties
  import opened PropertyCollection
  import PhpArray
  import ArrayResolver
  import ModelResolver
  import ObjectResolver
  import RequestResolver
  import RequestSources

  /** The four concrete resolvers, each carrying its constructor argument:
      `ArrayResolver`, `ModelResolver`, `ObjectResolverContract`, `RequestResolver`. */
  datatype Resolver =
    | ArraySource(data: map<string, Value>)
    | ModelSource(model: ModelResolver.Model)
    | ObjectSource(obj: Instance)
    | RequestSource(request: RequestSources.Request)

  /** The abstract `getPropertyValue`, dispatched to the resolver's backend:
      each backend's `$source[$name] ?? null`, and for a request the input of
      the contract the tags select. */
  function GetPropertyValue(res: Resolver, r: Reflect, name: string): (v: Value)
    ensures res.ArraySource? ==> v == Lookup(res.data, name)
    ensures res.ModelSource? ==> v == Lookup(ModelResolver.ToArray(res.model), name)
    ensures res.ObjectSource? ==>
      v == (if ObjectResolver.Accessible(res.obj, name) then Lookup(res.obj.state, name) else Null)
    ensures res.RequestSource? ==>
      v == RequestSources.GetInput(RequestResolver.GetRequestParameterValue(r, name), res.request, name)
  {
    match res
    case ArraySource(data) => ArrayResolver.GetPropertyValue(data, r, name)
    case ModelSource(model) => ModelResolver.GetPropertyValue(model, r, name)
    case ObjectSource(obj) => ObjectResolver.GetPropertyValue(obj, r, name)
    case RequestSource(request) => RequestResolver.GetPropertyValue(request, r, name)
  }

  /** Only the request resolver consults the introspector; every other
      backend reads the same value whatever reflector it is handed. */
  lemma {:induction false} OnlyRequestConsultsReflect(res: Resolver, r: Reflect, r': Reflect, name: string)
    requires !res.RequestSource?
    ensures GetPropertyValue(res, r, name) == GetPropertyValue(res, r', name)
  {
  }

  /** The parameter's default when one is available, `null` otherwise. */
  function DefaultOf(p: Param): Value {
    if p.hasDefault then p.default else Null
  }

  /** `getResolvedProperty`. The property argument is non-nullable in the
      source, so a caller must hold a declared property, although its content
      is not used. */
  function GetResolvedProperty(parameter: Param, property: Property, value: Value): (rp: ResolvedProperty)
    ensures rp.name == parameter.name && rp.value == value && rp.typ == parameter.typ
    ensures parameter.hasDefault ==> rp.default == parameter.default
    ensures !parameter.hasDefault ==> rp.default == Null
  {
    Make(parameter.name, value, parameter.typ, if parameter.hasDefault then parameter.default else Null)
  }

  /** Every listed parameter has a same-named declared property. */
  ghost predicate AllDeclared(r: Reflect, ps: seq<Param>) {
    forall i :: 0 <= i < |ps| ==> Declares(r.reflection, ps[i].name)
  }

  /** All but the last parameter are declared, and so is the last. */
  lemma {:induction false} AllDeclaredSnoc(r: Reflect, ps: seq<Param>)
    requires |ps| > 0
    requires AllDeclared(r, ps)
    ensures AllDeclared(r, ps[..|ps| - 1])
    ensures forall i :: 0 <= i < |ps| - 1 ==> ps[..|ps| - 1][i] == ps[i]
    ensures Declares(r.reflection, ps[|ps| - 1].name)
  {
    var prefix := ps[..|ps| - 1];
    forall i | 0 <= i < |prefix|
      ensures Declares(r.reflection, prefix[i].name)
    {
      assert prefix[i] == ps[i];
    }
  }

  /** The loop of `resolve` over `ps`, pushing one property per parameter. */
  function ResolveParams(res: Resolver, r: Reflect, ps: seq<Param>): (c: Collection)
    requires AllDeclared(r, ps)
    ensures |c| == |ps|
    ensures forall i :: 0 <= i < |ps| ==>
      && c[i].name == ps[i].name
      && c[i].value == GetPropertyValue(res, r, ps[i].name)
      && c[i].typ == ps[i].typ
      && c[i].default == DefaultOf(ps[i])
    decreases |ps|
  {
    if |ps| == 0 then []
    else
      var prefix := ps[..|ps| - 1];
      var p := ps[|ps| - 1];
      AllDeclaredSnoc(r, ps);
      var property := GetProperty(r, p.name);
      var value := GetPropertyValue(res, r, p.name);
      Push(ResolveParams(res, r, prefix), GetResolvedProperty(p, property.value, value))
  }

  /** The preconditions of `resolve`: the class has a constructor, and each of
      its parameters has a same-named property (otherwise `getResolvedProperty`
      receives `null` for a non-nullable argument). */
  ghost predicate CanResolve(r: Reflect) {
    HasConstructor(r) && AllDeclared(r, GetConstructorParams(r))
  }

  /** `resolve`: one resolved property per constructor parameter, in declaration order. */
  function Resolve(res: Resolver, r: Reflect): (c: Collection)
    requires CanResolve(r)
    ensures |GetConstructorParams(r)| == 0 ==> c == []
    ensures |c| == |GetConstructorParams(r)|
    ensures forall i :: 0 <= i < |c| ==>
      && c[i].name == GetConstructorParams(r)[i].name
      && c[i].value == GetPropertyValue(res, r, GetConstructorParams(r)[i].name)
      && c[i].typ == GetConstructorParams(r)[i].typ
      && c[i].default == DefaultOf(GetConstructorParams(r)[i])
  {
    var params := GetConstructorParams(r);
    if |params| == 0 then []
    else ResolveParams(res, r, params)
  }

  /** A parameter whose name the backend misses and which declares no default resolves to an effective `null`. */
  lemma {:induction false} MissingWithoutDefaultIsNull(res: Resolver, r: Reflect, i: int)
    requires CanResolve(r)
    requires 0 <= i < |GetConstructorParams(r)|
    requires GetPropertyValue(res, r, GetConstructorParams(r)[i].name) == Null
    requires !GetConstructorParams(r)[i].hasDefault
    ensures GetValue(Resolve(res, r)[i]) == Null
    ensures !IsDefault(Resolve(res, r)[i])
  {
  }

  /** A missing value falls back to the declared default. */
  lemma {:induction false} MissingWithDefaultUsesDefault(res: Resolver, r: Reflect, i: int)
    requires CanResolve(r)
    requires 0 <= i < |GetConstructorParams(r)|
    requires GetPropertyValue(res, r, GetConstructorParams(r)[i].name) == Null
    requires GetConstructorParams(r)[i].hasDefault
    ensures GetValue(Resolve(res, r)[i]) == GetConstructorParams(r)[i].default
  {
  }

  /** Through `resolve`, the object resolver yields each accessible, set property of the object, and `null` otherwise. */
  lemma {:induction false} ObjectResolveReadsProperties(obj: Instance, r: Reflect, i: int)
    requires CanResolve(r)
    requires 0 <= i < |GetConstructorParams(r)|
    ensures var name := GetConstructorParams(r)[i].name;
      Resolve(ObjectSource(obj), r)[i].value ==
        (if ObjectResolver.Accessible(obj, name) && name in obj.state then obj.state[name] else Null)
  {
  }

  /** `isType($t)` holds on item `i` of the resolution exactly when parameter
      `i` is declared with the type name `$t`. */
  lemma {:induction false} ResolveIsType(res: Resolver, r: Reflect, i: int, t: string)
    requires CanResolve(r)
    requires 0 <= i < |GetConstructorParams(r)|
    ensures IsType(Resolve(res, r)[i], t) <==> GetConstructorParams(r)[i].typ == Some(t)
  {
  }

  /** Two collections with the same distinct names in the same order and the same effective values project alike. */
  lemma {:induction false} SameProjection(c: Collection, c': Collection)
    requires UniqueNames(c)
    requires |c'| == |c|
    requires forall i :: 0 <= i < |c| ==> c'[i].name == c[i].name && GetValue(c'[i]) == GetValue(c[i])
    ensures ToAssocArray(c') == ToAssocArray(c)
  {
    assert UniqueNames(c');
    ToAssocArrayDistinct(c);
    ToAssocArrayDistinct(c');
  }

  /** The object's properties include every key of `a`, each holding what that
      key reads; the object may have further properties. */
  predicate HoldsArray(obj: Instance, a: PhpArray.Assoc) {
    forall k | k in PhpArray.AsMap(a) :: k in obj.state && obj.state[k] == PhpArray.AsMap(a)[k]
  }

  /** Each field read back from the object has the effective value it was projected with. */
  lemma {:induction false} RoundTripField(c: Collection, obj: Instance, rp: ResolvedProperty, i: int)
    requires UniqueNames(c)
    requires 0 <= i < |c|
    requires HoldsArray(obj, ToAssocArray(c))
    requires ObjectResolver.Accessible(obj, c[i].name)
    requires rp.value == Lookup(obj.state, c[i].name)
    requires rp.default == c[i].default
    ensures GetValue(rp) == GetValue(c[i])
  {
    var a := ToAssocArray(c);
    ToAssocArrayDistinct(c);
    PhpArray.GetUnique(a, i);
    assert a[i].key == c[i].name;
    assert PhpArray.KeyExists(a, c[i].name);
  }

  /** With distinct constructor parameter names, the resolved names are distinct. */
  lemma {:induction false} ResolveUniqueNames(res: Resolver, r: Reflect)
    requires CanResolve(r)
    requires WellFormed(r.reflection)
    ensures UniqueNames(Resolve(res, r))
  {
    var c := Resolve(res, r);
    var ps := GetConstructorParams(r);
    forall i, j | 0 <= i < j < |c|
      ensures c[i].name != c[j].name
    {
      assert c[i].name == ps[i].name && c[j].name == ps[j].name;
    }
  }

  /** Item `i` resolved through the object resolver carries the object's value under the name and default of item `i` of any other resolution. */
  lemma {:induction false} ObjectResolveField(res: Resolver, r: Reflect, obj: Instance, i: int)
    requires CanResolve(r)
    requires 0 <= i < |GetConstructorParams(r)|
    requires ObjectResolver.Accessible(obj, GetConstructorParams(r)[i].name)
    ensures Resolve(ObjectSource(obj), r)[i].name == Resolve(res, r)[i].name
    ensures Resolve(ObjectSource(obj), r)[i].value == Lookup(obj.state, Resolve(res, r)[i].name)
    ensures Resolve(ObjectSource(obj), r)[i].default == Resolve(res, r)[i].default
  {
  }

  /** Re-resolving through the object resolver from an object whose properties
      hold the projection (among any others) gives back the same projection. */
  lemma {:induction false} ObjectRoundTrip(res: Resolver, r: Reflect, obj: Instance)
    requires CanResolve(r)
    requires WellFormed(r.reflection)
    requires HoldsArray(obj, ToAssocArray(Resolve(res, r)))
    requires forall i :: 0 <= i < |GetConstructorParams(r)| ==>
      ObjectResolver.Accessible(obj, GetConstructorParams(r)[i].name)
    ensures ToAssocArray(Resolve(ObjectSource(obj), r)) == ToAssocArray(Resolve(res, r))
  {
    var c := Resolve(res, r);
    var c' := Resolve(ObjectSource(obj), r);
    ResolveUniqueNames(res, r);
    forall i | 0 <= i < |c|
      ensures c'[i].name == c[i].name && GetValue(c'[i]) == GetValue(c[i])
    {
      ObjectResolveField(res, r, obj, i);
      RoundTripField(c, obj, c'[i], i);
    }
    SameProjection(c, c');
  }
}
