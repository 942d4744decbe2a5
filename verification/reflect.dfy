/**
 * The introspection helper (`Reflect`), reduced to a metadata record.
 *
 * PHP's reflection API is replaced by `ClassMeta`, the structural facts the
 * engine reads: constructor parameters, declared properties with their
 * visibility and attributes, and class-level attributes. The "context" is
 * the live instance reads go through.
 */
module Reflection {
  import opened Wrappers
  import opened PhpValue
  import opened Search

  datatype Visibility = Public | Protected | Private

  /** A PHP attribute as declared: its fully qualified class name and the
      `parameterName` argument it was given (`None` when omitted or null). */
  datatype Attribute = Attribute(name: string, parameterName: Option<string>)

  /** A constructor parameter; `default` is read only when `hasDefault`
      (PHP's `isDefaultValueAvailable`). */
  datatype Param = Param(name: string, typ: Option<string>, hasDefault: bool, default: Value)

  /** A declared property. `initial` is what it holds before any constructor
      runs: its declared default, `null` for an untyped property, and `None`
      for a typed property without a default, which starts uninitialized. */
  datatype Property = Property(name: string, visibility: Visibility, initial: Option<Value>, attributes: seq<Attribute>)

  /** Structural metadata of a class; `ctor` is `None` when the class declares none. */
  datatype ClassMeta = ClassMeta(
    name: string,
    ctor: Option<seq<Param>>,
    properties: seq<Property>,
    attributes: seq<Attribute>)

  /** A live object: its class and the properties currently holding a value.
      An uninitialized typed property has no entry in `state`. */
  datatype Instance = Instance(cls: ClassMeta, state: map<string, Value>)

  /** The `object|string` argument of `Reflect`'s constructor. */
  datatype ObjectOrClass = ClassName(cls: ClassMeta) | Object(obj: Instance)

  /** The introspector: class metadata plus the instance that values are read from. */
  datatype Reflect = Reflect(reflection: ClassMeta, context: Instance)

  /** Reading a typed property before initialization is a PHP `Error`. */
  datatype ReflectError = UninitializedProperty(property: string)

  function PropertyNamed(k: string): Property -> bool {
    (p: Property) => p.name == k
  }

  /** Some declared property (of any visibility) is named `k`. */
  ghost predicate Declares(cls: ClassMeta, k: string) {
    exists i :: 0 <= i < |cls.properties| && cls.properties[i].name == k
  }

  /** Names are unique among properties and among constructor parameters, as PHP enforces. */
  ghost predicate WellFormed(cls: ClassMeta) {
    && (forall i, j :: 0 <= i < j < |cls.properties| ==> cls.properties[i].name != cls.properties[j].name)
    && (cls.ctor.Some? ==>
          forall i, j :: 0 <= i < j < |cls.ctor.value| ==>
            cls.ctor.value[i].name != cls.ctor.value[j].name)
  }

  /** First declared property named `k`, of any visibility. */
  function PropertyOf(cls: ClassMeta, k: string): (r: Option<Property>)
    ensures r.None? <==> !Declares(cls, k)
    ensures r.Some? ==> r.value.name == k && r.value in cls.properties
    ensures forall i | IsFirst(cls.properties, PropertyNamed(k), i) :: r == Some(cls.properties[i])
  {
    assert NoneMatch(cls.properties, PropertyNamed(k)) <==> !Declares(cls, k);
    Find(cls.properties, PropertyNamed(k))
  }

  /** `newInstanceWithoutConstructor`: only the properties with an initial value hold one. */
  function BlankInstance(cls: ClassMeta): (o: Instance)
    ensures o.cls == cls
    ensures forall k :: k in o.state <==> PropertyOf(cls, k).Some? && PropertyOf(cls, k).value.initial.Some?
    ensures forall k | k in o.state :: o.state[k] == PropertyOf(cls, k).value.initial.value
  {
    var names := set p | p in cls.properties :: p.name;
    Instance(cls, map k | k in names && PropertyOf(cls, k).value.initial.Some? :: PropertyOf(cls, k).value.initial.value)
  }

  /** `createContext`: a blank instance for a class name, the object itself otherwise. */
  function CreateContext(x: ObjectOrClass): (o: Instance)
    ensures x.Object? ==> o == x.obj
    ensures x.ClassName? ==> o == BlankInstance(x.cls)
  {
    match x
    case ClassName(cls) => BlankInstance(cls)
    case Object(obj) => obj
  }

  /** `new Reflect($objectOrClass)`: metadata and context always describe the same class. */
  function NewReflect(x: ObjectOrClass): (r: Reflect)
    ensures r.reflection == r.context.cls
    ensures r.reflection == (if x.ClassName? then x.cls else x.obj.cls)
    ensures r.context == CreateContext(x)
  {
    var cls := match x case ClassName(c) => c case Object(o) => o.cls;
    Reflect(cls, CreateContext(x))
  }

  /** The class declares a constructor, the domain of `getConstructorParams`. */
  predicate HasConstructor(r: Reflect) {
    r.reflection.ctor.Some?
  }

  /** `getConstructorParams`: the declared constructor's parameters, in declaration order. */
  function GetConstructorParams(r: Reflect): (ps: seq<Param>)
    requires HasConstructor(r)
    ensures r.reflection.ctor == Some(ps)
  {
    r.reflection.ctor.value
  }

  /** The parameters come from the class alone: a reflector on the class name
      and one on any instance of that class list the same parameters. */
  lemma {:induction false} ConstructorParamsIgnoreContext(obj: Instance)
    requires obj.cls.ctor.Some?
    ensures HasConstructor(NewReflect(ClassName(obj.cls))) && HasConstructor(NewReflect(Object(obj)))
    ensures GetConstructorParams(NewReflect(ClassName(obj.cls))) == GetConstructorParams(NewReflect(Object(obj)))
  {
  }

  /** `findAttribute`: the first class attribute, in declaration order, satisfying `p`. */
  function FindAttribute(r: Reflect, p: Attribute -> bool): (a: Option<Attribute>)
    ensures a.None? <==> NoneMatch(r.reflection.attributes, p)
    ensures forall i | IsFirst(r.reflection.attributes, p, i) :: a == Some(r.reflection.attributes[i])
  {
    Find(r.reflection.attributes, p)
  }

  /** The public members of `ps`, in order. */
  function PublicOnly(ps: seq<Property>): (r: seq<Property>)
    ensures |r| <= |ps|
    ensures forall q :: q in r <==> q in ps && q.visibility == Public
  {
    if |ps| == 0 then []
    else
      var rest := PublicOnly(ps[1..]);
      assert forall q :: q in ps <==> q == ps[0] || q in ps[1..];
      if ps[0].visibility == Public then [ps[0]] + rest else rest
  }

  /** `getProperties`: filtered to public properties. */
  function GetProperties(r: Reflect): (ps: seq<Property>)
    ensures forall q :: q in ps <==> q in r.reflection.properties && q.visibility == Public
  {
    PublicOnly(r.reflection.properties)
  }

  /** `getProperty`: soft-fails to `None` for an undeclared name; visibility is not filtered. */
  function GetProperty(r: Reflect, name: string): (p: Option<Property>)
    ensures p.None? <==> !Declares(r.reflection, name)
    ensures p.Some? ==> p.value.name == name && p.value in r.reflection.properties
  {
    PropertyOf(r.reflection, name)
  }

  /** `getPropertyValue`: `null` for an undeclared name, otherwise the property's value on the context. */
  function GetPropertyValue(r: Reflect, name: string): (v: Result<Value, ReflectError>)
    ensures !Declares(r.reflection, name) ==> v == Success(Null)
    ensures Declares(r.reflection, name) && name in r.context.state ==> v == Success(r.context.state[name])
    ensures Declares(r.reflection, name) && name !in r.context.state ==> v == Failure(UninitializedProperty(name))
  {
    match GetProperty(r, name)
    case None => Success(Null)
    case Some(p) =>
      if name in r.context.state then Success(r.context.state[name])
      else Failure(UninitializedProperty(name))
  }

  /** `getPropertyAttributes`: empty for an undeclared name. */
  function GetPropertyAttributes(r: Reflect, name: string): (attrs: seq<Attribute>)
    ensures !Declares(r.reflection, name) ==> attrs == []
    ensures forall i | IsFirst(r.reflection.properties, PropertyNamed(name), i) ::
      attrs == r.reflection.properties[i].attributes
  {
    match GetProperty(r, name)
    case None => []
    case Some(p) => p.attributes
  }

  /** `findPropertyAttribute`: the first attribute of property `name` satisfying `p`. */
  function FindPropertyAttribute(r: Reflect, name: string, p: Attribute -> bool): (a: Option<Attribute>)
    ensures a.None? <==> NoneMatch(GetPropertyAttributes(r, name), p)
    ensures !Declares(r.reflection, name) ==> a.None?
    ensures forall i | IsFirst(GetPropertyAttributes(r, name), p, i) :: a == Some(GetPropertyAttributes(r, name)[i])
  {
    Find(GetPropertyAttributes(r, name), p)
  }

  /** A non-public property is found by `getProperty` but not listed by `getProperties`. */
  lemma {:induction false} GetPropertyIgnoresVisibility(r: Reflect, i: int)
    requires 0 <= i < |r.reflection.properties|
    requires r.reflection.properties[i].visibility != Public
    requires forall j :: 0 <= j < i ==> r.reflection.properties[j].name != r.reflection.properties[i].name
    ensures GetProperty(r, r.reflection.properties[i].name) == Some(r.reflection.properties[i])
    ensures r.reflection.properties[i] !in GetProperties(r)
  {
    assert IsFirst(r.reflection.properties, PropertyNamed(r.reflection.properties[i].name), i);
  }
}
