/**
 * `RequestResolver`: picks, per constructor parameter, the request channel to
 * read from the attributes on the same-named property, then on the class,
 * then falls back to the generic-input default contract.
 */
module RequestResolver {
  import opened Wrappers
  import opened PhpValue
  import opened Search
  import opened Reflection
  import opened RequestSources

  const FromQueryClass: string := "SerterSerbest\\LTO\\Attributes\\Request\\FromQuery"
  const FromBodyClass: string := "SerterSerbest\\LTO\\Attributes\\Request\\FromBody"
  const FromRouteClass: string := "SerterSerbest\\LTO\\Attributes\\Request\\FromRoute"
  const FromRequestContractClass: string := "SerterSerbest\\LTO\\Attributes\\Request\\FromRequestContract"

  /** The attribute class a tag contract is instantiated from. */
  function TagClass(c: ValueContract): string
    requires c != DefaultValueContract
  {
    match c
    case FromQuery(_) => FromQueryClass
    case FromBody(_) => FromBodyClass
    case FromRoute(_) => FromRouteClass
    case FromRequestContract(_) => FromRequestContractClass
  }

  /** `searchAttributes`: the attribute's class is the class of one of the
      request-source tag contracts. */
  function SearchAttributes(a: Attribute): (r: bool)
    ensures r <==> exists c: ValueContract :: c != DefaultValueContract && TagClass(c) == a.name
  {
    var r := a.name in [FromQueryClass, FromBodyClass, FromRouteClass, FromRequestContractClass];
    assert r ==> (
      || TagClass(FromQuery(None)) == a.name
      || TagClass(FromBody(None)) == a.name
      || TagClass(FromRoute(None)) == a.name
      || TagClass(FromRequestContract(None)) == a.name);
    r
  }

  /** `newInstance` loses nothing: the qualifying attribute is recovered from
      the contract it instantiates, and every tag contract is the instance of
      the qualifying attribute naming its class. */
  lemma {:induction false} NewInstanceInverse(a: Attribute, c: ValueContract)
    requires SearchAttributes(a)
    requires c != DefaultValueContract
    ensures Attribute(TagClass(NewInstance(a)), NewInstance(a).parameterName) == a
    ensures SearchAttributes(Attribute(TagClass(c), c.parameterName))
    ensures NewInstance(Attribute(TagClass(c), c.parameterName)) == c
  {
  }

  /** `$attribute->newInstance()` for a qualifying attribute. */
  function NewInstance(a: Attribute): (c: ValueContract)
    requires SearchAttributes(a)
    ensures c != DefaultValueContract
    ensures c.parameterName == a.parameterName
    ensures a.name == FromQueryClass <==> c.FromQuery?
    ensures a.name == FromBodyClass <==> c.FromBody?
    ensures a.name == FromRouteClass <==> c.FromRoute?
  {
    if a.name == FromQueryClass then FromQuery(a.parameterName)
    else if a.name == FromBodyClass then FromBody(a.parameterName)
    else if a.name == FromRouteClass then FromRoute(a.parameterName)
    else FromRequestContract(a.parameterName)
  }

  /** `getRequestParameterValue`: property-level tag, else class-level tag, else the default contract. */
  function GetRequestParameterValue(r: Reflect, name: string): (c: ValueContract)
    ensures forall i | IsFirst(GetPropertyAttributes(r, name), SearchAttributes, i) ::
      c == NewInstance(GetPropertyAttributes(r, name)[i])
    ensures NoneMatch(GetPropertyAttributes(r, name), SearchAttributes) ==>
      forall i | IsFirst(r.reflection.attributes, SearchAttributes, i) :: c == NewInstance(r.reflection.attributes[i])
    ensures c == DefaultValueContract <==>
      NoneMatch(GetPropertyAttributes(r, name), SearchAttributes) && NoneMatch(r.reflection.attributes, SearchAttributes)
  {
    var attribute := FindPropertyAttribute(r, name, SearchAttributes);
    var attribute := if attribute.Some? then attribute else FindAttribute(r, SearchAttributes);
    match attribute
    case Some(a) =>
      assert SearchAttributes(a) by {
        var found := if FindPropertyAttribute(r, name, SearchAttributes).Some?
                     then GetPropertyAttributes(r, name) else r.reflection.attributes;
        var i := FirstIndex(found, SearchAttributes).value;
      }
      NewInstance(a)
    case None => DefaultValueContract
  }

  /** `getPropertyValue`: the selected contract's input, read with the resolver's request. */
  function GetPropertyValue(req: Request, r: Reflect, name: string): (v: Value)
    ensures v == GetInput(GetRequestParameterValue(r, name), req, name)
  {
    GetValue(ParameterValueResolver(req), GetRequestParameterValue(r, name), name)
  }

  /** A qualifying tag on the property decides, whatever the class carries. */
  lemma {:induction false} PropertyTagWins(r: Reflect, name: string, k: int, i: int)
    requires IsFirst(r.reflection.properties, PropertyNamed(name), k)
    requires IsFirst(r.reflection.properties[k].attributes, SearchAttributes, i)
    ensures GetRequestParameterValue(r, name) == NewInstance(r.reflection.properties[k].attributes[i])
  {
    assert GetPropertyAttributes(r, name) == r.reflection.properties[k].attributes;
  }

  /** Without a qualifying property tag (or without the property at all), the first qualifying class tag decides. */
  lemma {:induction false} ClassTagApplies(r: Reflect, name: string, i: int)
    requires !Declares(r.reflection, name) || NoneMatch(GetPropertyAttributes(r, name), SearchAttributes)
    requires IsFirst(r.reflection.attributes, SearchAttributes, i)
    ensures GetRequestParameterValue(r, name) == NewInstance(r.reflection.attributes[i])
  {
    assert NoneMatch(GetPropertyAttributes(r, name), SearchAttributes);
  }

  /** With no qualifying tag at either level, the field is read from generic input under its own name. */
  lemma {:induction false} UntaggedReadsInput(req: Request, r: Reflect, name: string)
    requires NoneMatch(GetPropertyAttributes(r, name), SearchAttributes)
    requires NoneMatch(r.reflection.attributes, SearchAttributes)
    ensures GetPropertyValue(req, r, name) == Lookup(req.input, name)
  {
    assert GetRequestParameterValue(r, name) == DefaultValueContract;
  }
}
