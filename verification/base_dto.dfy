/**
 * `BaseDTO`: a data-transfer object built through one resolver. It keeps the
 * projection it was constructed from as its `resource` snapshot, and
 * rebuilds that snapshot from its own properties when it is empty.
 */
module BaseDto {
  import opened Wrappers
  import opened PhpValue
  import opened PhpArray
  import opened Reflection
  import PropertyCollection
  import ResolvedProperties
  import BaseResolver
  import ModelResolver
  import ObjectResolver
  import RequestResolver
  import RequestSources

  /** A DTO object: the instance (its class and declared properties' state)
      with the protected `resource` snapshot and `reflect` helper. */
  datatype Dto = Dto(obj: Instance, resource: Assoc, reflect: Reflect)

  /** `newInstanceArgs`: runs the class's own constructor with the projection
      as named arguments, yielding the new object's property state. The
      constructor body is user code, so it is a parameter of the model. */
  type Construct = Assoc -> map<string, Value>

  /** A class `boot` can resolve: it has a constructor and each parameter has a same-named property. */
  ghost predicate Bootable(cls: ClassMeta) {
    BaseResolver.CanResolve(NewReflect(ClassName(cls)))
  }

  /** `boot`: resolve against a blank context of the class, construct the
      instance from the projection, and keep the projection as `resource`. */
  function Boot(cls: ClassMeta, res: BaseResolver.Resolver, construct: Construct): (d: Dto)
    requires Bootable(cls)
    ensures d.resource == PropertyCollection.ToAssocArray(BaseResolver.Resolve(res, NewReflect(ClassName(cls))))
    ensures d.obj == Instance(cls, construct(d.resource))
    ensures d.reflect == NewReflect(Object(d.obj))
    ensures WellFormed(cls) ==>
      && |d.resource| == |cls.ctor.value|
      && forall i :: 0 <= i < |cls.ctor.value| ==>
        d.resource[i] == Entry(cls.ctor.value[i].name,
          Coalesce(BaseResolver.GetPropertyValue(res, NewReflect(ClassName(cls)), cls.ctor.value[i].name),
                   BaseResolver.DefaultOf(cls.ctor.value[i])))
  {
    var reflect := NewReflect(ClassName(cls));
    var props := BaseResolver.Resolve(res, reflect);
    var resource := PropertyCollection.ToAssocArray(props);
    assert WellFormed(cls) ==>
      resource == seq(|props|, i requires 0 <= i < |props| => Entry(props[i].name, ResolvedProperties.GetValue(props[i]))) by {
      if WellFormed(cls) {
        BaseResolver.ResolveUniqueNames(res, reflect);
        PropertyCollection.ToAssocArrayDistinct(props);
      }
    }
    var instance := Instance(cls, construct(resource));
    Dto(instance, resource, NewReflect(Object(instance)))
  }

  /** `fromRequest`: boot through the request resolver. */
  function FromRequest(cls: ClassMeta, request: RequestSources.Request, construct: Construct): (d: Dto)
    requires Bootable(cls)
    ensures d == Boot(cls, BaseResolver.RequestSource(request), construct)
  {
    Boot(cls, BaseResolver.RequestSource(request), construct)
  }

  /** `fromArray`: boot through the array resolver. */
  function FromArray(cls: ClassMeta, data: map<string, Value>, construct: Construct): (d: Dto)
    requires Bootable(cls)
    ensures d == Boot(cls, BaseResolver.ArraySource(data), construct)
  {
    Boot(cls, BaseResolver.ArraySource(data), construct)
  }

  /** `fromModel`: boot through the model resolver. */
  function FromModel(cls: ClassMeta, model: ModelResolver.Model, construct: Construct): (d: Dto)
    requires Bootable(cls)
    ensures d == Boot(cls, BaseResolver.ModelSource(model), construct)
  {
    Boot(cls, BaseResolver.ModelSource(model), construct)
  }

  /** `fromObject`: boot through the object resolver. */
  function FromObject(cls: ClassMeta, obj: Instance, construct: Construct): (d: Dto)
    requires Bootable(cls)
    ensures d == Boot(cls, BaseResolver.ObjectSource(obj), construct)
  {
    Boot(cls, BaseResolver.ObjectSource(obj), construct)
  }

  /** `fromArray` stores, per constructor parameter in order, the array's value
      under the parameter's name, or the parameter's default when that entry
      is missing or `null`. */
  lemma {:induction false} FromArrayEntries(cls: ClassMeta, data: map<string, Value>, construct: Construct)
    requires Bootable(cls) && WellFormed(cls)
    ensures |FromArray(cls, data, construct).resource| == |cls.ctor.value|
    ensures forall i :: 0 <= i < |cls.ctor.value| ==>
      FromArray(cls, data, construct).resource[i] ==
        Entry(cls.ctor.value[i].name, Coalesce(Lookup(data, cls.ctor.value[i].name), BaseResolver.DefaultOf(cls.ctor.value[i])))
  {
    var d := FromArray(cls, data, construct);
    forall i | 0 <= i < |cls.ctor.value|
      ensures d.resource[i] ==
        Entry(cls.ctor.value[i].name, Coalesce(Lookup(data, cls.ctor.value[i].name), BaseResolver.DefaultOf(cls.ctor.value[i])))
    {
      var n := cls.ctor.value[i].name;
      assert BaseResolver.GetPropertyValue(BaseResolver.ArraySource(data), NewReflect(ClassName(cls)), n) == Lookup(data, n);
    }
  }

  /** `fromModel` stores, per constructor parameter in order, the model's
      flattened attribute under the parameter's name, or the parameter's
      default when that attribute is missing or `null`. */
  lemma {:induction false} FromModelEntries(cls: ClassMeta, model: ModelResolver.Model, construct: Construct)
    requires Bootable(cls) && WellFormed(cls)
    ensures |FromModel(cls, model, construct).resource| == |cls.ctor.value|
    ensures forall i :: 0 <= i < |cls.ctor.value| ==>
      FromModel(cls, model, construct).resource[i] ==
        Entry(cls.ctor.value[i].name,
          Coalesce(Lookup(ModelResolver.ToArray(model), cls.ctor.value[i].name), BaseResolver.DefaultOf(cls.ctor.value[i])))
  {
    var d := FromModel(cls, model, construct);
    forall i | 0 <= i < |cls.ctor.value|
      ensures d.resource[i] ==
        Entry(cls.ctor.value[i].name,
          Coalesce(Lookup(ModelResolver.ToArray(model), cls.ctor.value[i].name), BaseResolver.DefaultOf(cls.ctor.value[i])))
    {
      var n := cls.ctor.value[i].name;
      assert BaseResolver.GetPropertyValue(BaseResolver.ModelSource(model), NewReflect(ClassName(cls)), n)
        == Lookup(ModelResolver.ToArray(model), n);
    }
  }

  /** The value `fromObject` reads for a parameter name: the object's property
      when it is accessible from outside, `null` otherwise. */
  function OutsideRead(obj: Instance, n: string): Value {
    if ObjectResolver.Accessible(obj, n) then Lookup(obj.state, n) else Null
  }

  /** `fromObject` stores, per constructor parameter in order, the source
      object's accessible same-named property, or the parameter's default
      when that property is unset, inaccessible or `null`. */
  lemma {:induction false} FromObjectEntries(cls: ClassMeta, obj: Instance, construct: Construct)
    requires Bootable(cls) && WellFormed(cls)
    ensures |FromObject(cls, obj, construct).resource| == |cls.ctor.value|
    ensures forall i :: 0 <= i < |cls.ctor.value| ==>
      FromObject(cls, obj, construct).resource[i] ==
        Entry(cls.ctor.value[i].name, Coalesce(OutsideRead(obj, cls.ctor.value[i].name), BaseResolver.DefaultOf(cls.ctor.value[i])))
  {
    var d := FromObject(cls, obj, construct);
    forall i | 0 <= i < |cls.ctor.value|
      ensures d.resource[i] ==
        Entry(cls.ctor.value[i].name, Coalesce(OutsideRead(obj, cls.ctor.value[i].name), BaseResolver.DefaultOf(cls.ctor.value[i])))
    {
      var n := cls.ctor.value[i].name;
      assert BaseResolver.GetPropertyValue(BaseResolver.ObjectSource(obj), NewReflect(ClassName(cls)), n) == OutsideRead(obj, n);
    }
  }

  /** The value `fromRequest` reads for a parameter name: the input of the
      contract the property's or the class's tags select. */
  function TaggedRead(cls: ClassMeta, request: RequestSources.Request, n: string): Value {
    RequestSources.GetInput(RequestResolver.GetRequestParameterValue(NewReflect(ClassName(cls)), n), request, n)
  }

  /** `fromRequest` stores, per constructor parameter in order, the request
      input its tags select, or the parameter's default when that is `null`. */
  lemma {:induction false} FromRequestEntries(cls: ClassMeta, request: RequestSources.Request, construct: Construct)
    requires Bootable(cls) && WellFormed(cls)
    ensures |FromRequest(cls, request, construct).resource| == |cls.ctor.value|
    ensures forall i :: 0 <= i < |cls.ctor.value| ==>
      FromRequest(cls, request, construct).resource[i] ==
        Entry(cls.ctor.value[i].name, Coalesce(TaggedRead(cls, request, cls.ctor.value[i].name), BaseResolver.DefaultOf(cls.ctor.value[i])))
  {
    var d := FromRequest(cls, request, construct);
    forall i | 0 <= i < |cls.ctor.value|
      ensures d.resource[i] ==
        Entry(cls.ctor.value[i].name, Coalesce(TaggedRead(cls, request, cls.ctor.value[i].name), BaseResolver.DefaultOf(cls.ctor.value[i])))
    {
      var n := cls.ctor.value[i].name;
      assert BaseResolver.GetPropertyValue(BaseResolver.RequestSource(request), NewReflect(ClassName(cls)), n)
        == TaggedRead(cls, request, n);
    }
  }

  /** The state of `getResource`'s loop: the array filled so far and the
      error that ended the loop early, if any. */
  datatype Rebuilt = Rebuilt(resource: Assoc, error: Option<ReflectError>)

  /** Every parameter of `ps` can be read on `r`'s context. */
  ghost predicate AllReadable(r: Reflect, ps: seq<Param>) {
    forall i :: 0 <= i < |ps| ==> GetPropertyValue(r, ps[i].name).Success?
  }

  /** Parameter `i` is the first of `ps` whose property cannot be read. */
  ghost predicate IsFirstUnreadable(r: Reflect, ps: seq<Param>, i: int) {
    && 0 <= i < |ps|
    && GetPropertyValue(r, ps[i].name).Failure?
    && AllReadable(r, ps[..i])
  }

  /** `getResource`'s loop over the parameters `ps`, from an empty array: each
      parameter's property value is stored under its name, and a read that
      throws ends the loop, keeping what was stored before it. */
  function Rebuild(r: Reflect, ps: seq<Param>): (out: Rebuilt)
    ensures UniqueKeys(out.resource)
    ensures out.error.None? <==> AllReadable(r, ps)
    decreases |ps|
  {
    if |ps| == 0 then Rebuilt([], None)
    else
      var prefix := ps[..|ps| - 1];
      var name := ps[|ps| - 1].name;
      var prev := Rebuild(r, prefix);
      AllReadableSnoc(r, ps);
      if prev.error.Some? then prev
      else
        match GetPropertyValue(r, name)
        case Failure(e) => Rebuilt(prev.resource, Some(e))
        case Success(v) =>
          PutSpec(prev.resource, name, v);
          Rebuilt(Put(prev.resource, name, v), None)
  }

  /** Every parameter of `ps` is readable exactly when all but the last are and the last is. */
  lemma {:induction false} AllReadableSnoc(r: Reflect, ps: seq<Param>)
    requires |ps| > 0
    ensures AllReadable(r, ps) <==>
      AllReadable(r, ps[..|ps| - 1]) && GetPropertyValue(r, ps[|ps| - 1].name).Success?
  {
    var prefix := ps[..|ps| - 1];
    if AllReadable(r, prefix) && GetPropertyValue(r, ps[|ps| - 1].name).Success? {
      forall i | 0 <= i < |ps|
        ensures GetPropertyValue(r, ps[i].name).Success?
      {
        if i < |prefix| {
          assert ps[i] == prefix[i];
        }
      }
    }
    if AllReadable(r, ps) {
      forall i | 0 <= i < |prefix|
        ensures GetPropertyValue(r, prefix[i].name).Success?
      {
        assert prefix[i] == ps[i];
      }
    }
  }

  /** Every key of the rebuilt array is the name of one of the parameters. */
  lemma {:induction false} RebuildKeysAreParams(r: Reflect, ps: seq<Param>, k: string)
    requires KeyExists(Rebuild(r, ps).resource, k)
    ensures exists i :: 0 <= i < |ps| && ps[i].name == k
    decreases |ps|
  {
    var prefix := ps[..|ps| - 1];
    var name := ps[|ps| - 1].name;
    var prev := Rebuild(r, prefix);
    if k == name {
      assert ps[|ps| - 1].name == k;
    } else {
      if prev.error.None? && GetPropertyValue(r, name).Success? {
        PutSpec(prev.resource, name, GetPropertyValue(r, name).value);
      }
      assert KeyExists(prev.resource, k);
      RebuildKeysAreParams(r, prefix, k);
      var i :| 0 <= i < |prefix| && prefix[i].name == k;
      assert ps[i].name == k;
    }
  }

  /** One step of the loop when the earlier reads and the last read succeed:
      the last parameter's value is stored into the earlier array. */
  lemma {:induction false} RebuildUnfoldSuccess(r: Reflect, ps: seq<Param>)
    requires |ps| > 0
    requires Rebuild(r, ps[..|ps| - 1]).error.None?
    requires GetPropertyValue(r, ps[|ps| - 1].name).Success?
    ensures Rebuild(r, ps) == Rebuilt(
      Put(Rebuild(r, ps[..|ps| - 1]).resource, ps[|ps| - 1].name, GetPropertyValue(r, ps[|ps| - 1].name).value), None)
  {
  }

  /** Each parameter's name paired with its property value, in order, for
      parameters whose reads all succeed. */
  function ReadAll(r: Reflect, ps: seq<Param>): (a: Assoc)
    requires AllReadable(r, ps)
    ensures |a| == |ps|
    ensures forall i :: 0 <= i < |ps| ==> a[i] == Entry(ps[i].name, GetPropertyValue(r, ps[i].name).value)
  {
    seq(|ps|, i requires 0 <= i < |ps| => Entry(ps[i].name, GetPropertyValue(r, ps[i].name).value))
  }

  /** Reading all parameters reads all but the last, then the last. */
  lemma {:induction false} ReadAllSnoc(r: Reflect, ps: seq<Param>)
    requires |ps| > 0
    requires AllReadable(r, ps) && AllReadable(r, ps[..|ps| - 1])
    ensures ReadAll(r, ps) ==
      ReadAll(r, ps[..|ps| - 1]) + [Entry(ps[|ps| - 1].name, GetPropertyValue(r, ps[|ps| - 1].name).value)]
  {
    var prefix := ps[..|ps| - 1];
    var b := ReadAll(r, prefix) + [Entry(ps[|ps| - 1].name, GetPropertyValue(r, ps[|ps| - 1].name).value)];
    forall i | 0 <= i < |ps|
      ensures b[i] == ReadAll(r, ps)[i]
    {
      if i < |prefix| {
        assert prefix[i] == ps[i];
      }
    }
  }

  /** With distinct parameter names and every read succeeding, the rebuilt
      array has one entry per parameter, in order, holding its property value. */
  lemma {:induction false} RebuildDistinct(r: Reflect, ps: seq<Param>)
    requires forall i, j :: 0 <= i < j < |ps| ==> ps[i].name != ps[j].name
    requires AllReadable(r, ps)
    ensures Rebuild(r, ps) == Rebuilt(ReadAll(r, ps), None)
    decreases |ps|
  {
    if |ps| > 0 {
      var prefix := ps[..|ps| - 1];
      var name := ps[|ps| - 1].name;
      var v := GetPropertyValue(r, name).value;
      AllReadableSnoc(r, ps);
      assert forall i, j :: 0 <= i < j < |prefix| ==> prefix[i].name != prefix[j].name by {
        forall i, j | 0 <= i < j < |prefix|
          ensures prefix[i].name != prefix[j].name
        {
          assert prefix[i] == ps[i] && prefix[j] == ps[j];
        }
      }
      RebuildDistinct(r, prefix);
      var a := ReadAll(r, prefix);
      assert !KeyExists(a, name) by {
        forall m | 0 <= m < |a|
          ensures a[m].key != name
        {
          assert a[m].key == ps[m].name;
        }
      }
      RebuildUnfoldSuccess(r, ps);
      assert Put(a, name, v) == a + [Entry(name, v)];
      ReadAllSnoc(r, ps);
    }
  }

  /** A read that throws ends the loop: the result keeps exactly what the
      parameters before it stored, and carries that read's error. */
  lemma {:induction false} RebuildStopsAtFirstFailure(r: Reflect, ps: seq<Param>, i: int)
    requires IsFirstUnreadable(r, ps, i)
    ensures Rebuild(r, ps) == Rebuilt(Rebuild(r, ps[..i]).resource, Some(UninitializedProperty(ps[i].name)))
    decreases |ps|
  {
    var prefix := ps[..|ps| - 1];
    assert ps[..i] == prefix[..i] || i == |ps| - 1;
    if i < |ps| - 1 {
      assert prefix[i] == ps[i];
      assert prefix[..i] == ps[..i];
      RebuildStopsAtFirstFailure(r, prefix, i);
    } else {
      assert prefix == ps[..i];
    }
  }

  /** `getResource` can run: a stored snapshot exists, or the class has a
      constructor to read parameter names from. */
  predicate CanGetResource(d: Dto) {
    |d.resource| > 0 || d.obj.cls.ctor.Some?
  }

  /** `e` is the error of reading a constructor parameter's property that is
      declared on `obj`'s class but holds no value. */
  ghost predicate UnreadableParam(obj: Instance, e: ReflectError) {
    && obj.cls.ctor.Some?
    && exists i :: (0 <= i < |obj.cls.ctor.value|
      && e == UninitializedProperty(obj.cls.ctor.value[i].name)
      && Declares(obj.cls, obj.cls.ctor.value[i].name)
      && obj.cls.ctor.value[i].name !in obj.state)
  }

  /** `getResource`: the stored snapshot when it is non-empty (PHP truthiness);
      otherwise a fresh `reflect` on the object itself, and the snapshot rebuilt
      from the constructor parameters' property values and stored. The first
      component is the DTO afterwards; a read that throws leaves the partial
      snapshot stored and yields `Failure`. */
  function GetResource(d: Dto): (out: (Dto, Result<Assoc, ReflectError>))
    requires CanGetResource(d)
    ensures |d.resource| > 0 ==> out == (d, Success(d.resource))
    ensures out.0.obj == d.obj
    ensures out.1.Success? ==> out.1.value == out.0.resource
    ensures |d.resource| == 0 ==> out.0.reflect == NewReflect(Object(d.obj))
    ensures out.1.Failure? ==>
      && |d.resource| == 0
      && UnreadableParam(d.obj, out.1.error)
  {
    if |d.resource| > 0 then (d, Success(d.resource))
    else
      var reflect := NewReflect(Object(d.obj));
      var ps := GetConstructorParams(reflect);
      var out := Rebuild(reflect, ps);
      var d' := d.(resource := out.resource, reflect := reflect);
      match out.error
      case None => (d', Success(out.resource))
      case Some(e) =>
        RebuildErrorIsUnreadable(d.obj);
        (d', Failure(e))
  }

  /** The error a failed loop reports belongs to an unreadable parameter. */
  lemma {:induction false} FirstFailureIsTheError(r: Reflect, ps: seq<Param>)
    requires Rebuild(r, ps).error.Some?
    ensures exists i :: (0 <= i < |ps|
      && Rebuild(r, ps).error.value == UninitializedProperty(ps[i].name)
      && GetPropertyValue(r, ps[i].name).Failure?)
    decreases |ps|
  {
    var prefix := ps[..|ps| - 1];
    if Rebuild(r, prefix).error.Some? {
      FirstFailureIsTheError(r, prefix);
      var i :| 0 <= i < |prefix|
        && Rebuild(r, prefix).error.value == UninitializedProperty(prefix[i].name)
        && GetPropertyValue(r, prefix[i].name).Failure?;
      assert ps[i] == prefix[i];
    } else {
      assert GetPropertyValue(r, ps[|ps| - 1].name).Failure?;
    }
  }

  /** The error of a failed rebuild on an object names a constructor parameter
      whose declared property holds no value. */
  lemma {:induction false} RebuildErrorIsUnreadable(obj: Instance)
    requires obj.cls.ctor.Some?
    requires Rebuild(NewReflect(Object(obj)), obj.cls.ctor.value).error.Some?
    ensures UnreadableParam(obj, Rebuild(NewReflect(Object(obj)), obj.cls.ctor.value).error.value)
  {
    var r := NewReflect(Object(obj));
    var ps := obj.cls.ctor.value;
    FirstFailureIsTheError(r, ps);
    var i :| 0 <= i < |ps|
      && Rebuild(r, ps).error.value == UninitializedProperty(ps[i].name)
      && GetPropertyValue(r, ps[i].name).Failure?;
    assert Declares(obj.cls, ps[i].name) && ps[i].name !in obj.state;
  }

  /** `toArray`: the array `getResource` gives, with the same effect on the DTO. */
  function ToArray(d: Dto): (out: (Dto, Result<Assoc, ReflectError>))
    requires CanGetResource(d)
    ensures out == GetResource(d)
  {
    GetResource(d)
  }

  /** With an empty snapshot, distinct parameter names and every property
      initialized, `getResource` stores and returns one entry per constructor
      parameter, in order, holding the object's value of that property
      (`null` for a parameter without a same-named property). */
  lemma {:induction false} GetResourceRebuilds(d: Dto)
    requires |d.resource| == 0 && d.obj.cls.ctor.Some?
    requires WellFormed(d.obj.cls)
    requires forall i :: 0 <= i < |d.obj.cls.ctor.value| && Declares(d.obj.cls, d.obj.cls.ctor.value[i].name) ==>
      d.obj.cls.ctor.value[i].name in d.obj.state
    ensures GetResource(d).1.Success?
    ensures GetResource(d).0.resource == seq(|d.obj.cls.ctor.value|, i requires 0 <= i < |d.obj.cls.ctor.value| =>
      var name := d.obj.cls.ctor.value[i].name;
      Entry(name, if Declares(d.obj.cls, name) then d.obj.state[name] else Null))
  {
    var reflect := NewReflect(Object(d.obj));
    var ps := d.obj.cls.ctor.value;
    assert AllReadable(reflect, ps);
    RebuildDistinct(reflect, ps);
  }

  /** Two successive `getResource` calls return the same array, and the second
      leaves the DTO as the first left it. */
  lemma {:induction false} GetResourceIdempotent(d: Dto)
    requires CanGetResource(d)
    requires GetResource(d).1.Success?
    ensures CanGetResource(GetResource(d).0)
    ensures GetResource(GetResource(d).0) == GetResource(d)
  {
  }

  /** After a read fails half-way, the partial snapshot is stored; when it is
      non-empty, the next `getResource` returns it as if it were complete. */
  lemma {:induction false} FailureLeavesPartialSnapshot(d: Dto, i: int)
    requires |d.resource| == 0 && d.obj.cls.ctor.Some?
    requires IsFirstUnreadable(NewReflect(Object(d.obj)), d.obj.cls.ctor.value, i)
    ensures GetResource(d).1 == Failure(UninitializedProperty(d.obj.cls.ctor.value[i].name))
    ensures GetResource(d).0.resource == Rebuild(NewReflect(Object(d.obj)), d.obj.cls.ctor.value[..i]).resource
    ensures |GetResource(d).0.resource| > 0 ==>
      GetResource(GetResource(d).0).1 == Success(GetResource(d).0.resource)
  {
    RebuildStopsAtFirstFailure(NewReflect(Object(d.obj)), d.obj.cls.ctor.value, i);
  }

  /** Right after `boot`, `getResource` (and `toArray`) returns the resolved
      projection and leaves the DTO unchanged. */
  lemma {:induction false} BootThenGetResource(cls: ClassMeta, res: BaseResolver.Resolver, construct: Construct)
    requires Bootable(cls)
    ensures CanGetResource(Boot(cls, res, construct))
    ensures GetResource(Boot(cls, res, construct)) == (Boot(cls, res, construct), Success(Boot(cls, res, construct).resource))
  {
    var d := Boot(cls, res, construct);
    if |d.resource| == 0 {
      var c := BaseResolver.Resolve(res, NewReflect(ClassName(cls)));
      assert |c| == 0;
      assert |cls.ctor.value| == 0;
    }
  }
}
