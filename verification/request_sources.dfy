/**
 * The request seen through its lookup channels, and the value contracts
 * that read one channel each: the `FromQuery`, `FromBody`, `FromRoute` and
 * `FromRequestContract` attributes and the untagged default contract.
 */
module RequestSources {
  import opened Wrappers
  import opened PhpValue

  /** Key of the route lookup used by `FromRoute`, whose class is not part of
      this model: the lookup is left uninterpreted in both the attribute's
      override and the parameter name. */
  datatype RouteKey = RouteKey(parameterName: Option<string>, name: string)

  /** An incoming request. Each channel is an uninterpreted lookup; a missing
      key reads as `null`, as the request accessors' default argument does.
      How the generic `input` channel merges body and query is not modelled. */
  datatype Request = Request(
    query: map<string, Value>,
    post: map<string, Value>,
    input: map<string, Value>,
    route: map<RouteKey, Value>)

  /** A `RequestParameterValueContract`: the attribute instance (with its
      optional `parameterName` override) or the default contract. */
  datatype ValueContract =
    | FromQuery(parameterName: Option<string>)
    | FromBody(parameterName: Option<string>)
    | FromRoute(parameterName: Option<string>)
    | FromRequestContract(parameterName: Option<string>)
    | DefaultValueContract

  /** `$this->parameterName ?? $parameterName`: any non-null override wins, the empty string included. */
  function EffectiveName(parameterName: Option<string>, name: string): (k: string)
    ensures parameterName.Some? ==> k == parameterName.value
    ensures parameterName.None? ==> k == name
  {
    match parameterName
    case Some(n) => n
    case None => name
  }

  /** `getInput($request, $parameterName)` of each contract. */
  function GetInput(c: ValueContract, req: Request, name: string): (v: Value)
    ensures c.FromQuery? ==> v == Lookup(req.query, EffectiveName(c.parameterName, name))
    ensures c.FromBody? ==> v == Lookup(req.post, EffectiveName(c.parameterName, name))
    ensures c.FromRequestContract? ==> v == Lookup(req.input, EffectiveName(c.parameterName, name))
    ensures c.DefaultValueContract? ==> v == Lookup(req.input, name)
  {
    match c
    case FromQuery(o) => Lookup(req.query, EffectiveName(o, name))
    case FromBody(o) => Lookup(req.post, EffectiveName(o, name))
    case FromRoute(o) => if RouteKey(o, name) in req.route then req.route[RouteKey(o, name)] else Null
    case FromRequestContract(o) => Lookup(req.input, EffectiveName(o, name))
    case DefaultValueContract => Lookup(req.input, name)
  }

  /** Each contract reads only its own channel: requests that agree on that channel give the same value. */
  lemma {:induction false} GetInputReadsOneChannel(c: ValueContract, req: Request, req': Request, name: string)
    requires c.FromQuery? ==> req.query == req'.query
    requires c.FromBody? ==> req.post == req'.post
    requires c.FromRoute? ==> req.route == req'.route
    requires c.FromRequestContract? || c.DefaultValueContract? ==> req.input == req'.input
    ensures GetInput(c, req, name) == GetInput(c, req', name)
  {
  }

  /** An override replaces the parameter name even when it is the empty string. */
  lemma {:induction false} EmptyOverrideIsUsed(req: Request, name: string)
    ensures GetInput(FromQuery(Some("")), req, name) == Lookup(req.query, "")
    ensures GetInput(FromBody(Some("")), req, name) == Lookup(req.post, "")
    ensures GetInput(FromRequestContract(Some("")), req, name) == Lookup(req.input, "")
  {
  }

  /** With the attribute's default constructor (no override) each tag reads its
      channel under the parameter name, and `FromRequestContract` then reads
      exactly what the default contract reads. */
  lemma {:induction false} DefaultConstructedTags(req: Request, name: string)
    ensures GetInput(FromQuery(None), req, name) == Lookup(req.query, name)
    ensures GetInput(FromBody(None), req, name) == Lookup(req.post, name)
    ensures GetInput(FromRequestContract(None), req, name) == GetInput(DefaultValueContract, req, name)
  {
  }

  /** `RequestParameterValueResolver`: holds the request fixed at construction. */
  datatype ParameterValueResolver = ParameterValueResolver(request: Request)

  /** `getValue`: delegate to the contract with the stored request and the unchanged name. */
  function GetValue(res: ParameterValueResolver, c: ValueContract, name: string): (v: Value)
    ensures v == GetInput(c, res.request, name)
  {
    GetInput(c, res.request, name)
  }
}
