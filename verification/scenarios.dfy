/**
 * Worked examples: small concrete DTO classes run through each resolver,
 * and the projection of a collection with a repeated name.
 */
module Scenarios {
  import opened Wrappers
  import opened PhpValue
  import opened Search
  import opened PhpArray
  import opened Reflection
  import opened ResolvedProperties
  import opened RequestSources
  import PropertyCollection
  import BaseResolver
  import RequestResolver
  import ModelResolver
  import opened BaseDto

  const IdParam := Param("id", Some("int"), false, Null)
  const NameParam := Param("name", Some("string"), true, Str("anon"))

  /** `UserDTO(?int $id, string $name = "anon")` with untagged public properties.
      The type name of `?int` is `int`, as `getType()?->getName()` reports it;
      the `?` lets the constructor accept the `null` a missed `id` resolves to. */
  const User := ClassMeta("UserDTO", Some([IdParam, NameParam]),
    [Property("id", Public, None, []), Property("name", Public, None, [])], [])

  const QueryTag := Attribute(RequestResolver.FromQueryClass, None)
  const BodyTag := Attribute(RequestResolver.FromBodyClass, None)

  /** The same class tagged `#[FromQuery]`, with `name` tagged `#[FromBody]`. */
  const TaggedUser := ClassMeta("TaggedUserDTO", Some([IdParam, NameParam]),
    [Property("id", Public, None, []), Property("name", Public, None, [BodyTag])], [QueryTag])

  /** Both example classes can be booted and have distinct names. */
  lemma {:induction false} ExampleClassesAreBootable()
    ensures Bootable(User) && WellFormed(User)
    ensures Bootable(TaggedUser) && WellFormed(TaggedUser)
  {
    assert User.properties[0].name == "id" && User.properties[1].name == "name";
    assert TaggedUser.properties[0].name == "id" && TaggedUser.properties[1].name == "name";
  }

  /** Booting a class with constructor `(id, name = "anon")` stores the fetched
      `id` and the fetched `name`, or `"anon"` when the backend misses it. */
  lemma {:induction false} BootIdName(cls: ClassMeta, res: BaseResolver.Resolver, construct: Construct)
    requires cls.ctor == Some([IdParam, NameParam])
    requires Bootable(cls) && WellFormed(cls)
    ensures Boot(cls, res, construct).resource == [
      Entry("id", BaseResolver.GetPropertyValue(res, NewReflect(ClassName(cls)), "id")),
      Entry("name", Coalesce(BaseResolver.GetPropertyValue(res, NewReflect(ClassName(cls)), "name"), Str("anon")))]
  {
    var d := Boot(cls, res, construct);
    assert cls.ctor.value[0] == IdParam && cls.ctor.value[1] == NameParam;
    assert d.resource[0].val == Coalesce(BaseResolver.GetPropertyValue(res, NewReflect(ClassName(cls)), "id"), Null);
  }

  /** `fromArray(['id' => 7])` on `UserDTO` gives `['id' => 7, 'name' => 'anon']`. */
  lemma {:induction false} ArrayFillsDefault(construct: Construct)
    ensures Bootable(User)
    ensures FromArray(User, map["id" := Int(7)], construct).resource ==
      [Entry("id", Int(7)), Entry("name", Str("anon"))]
  {
    ExampleClassesAreBootable();
    BootIdName(User, BaseResolver.ArraySource(map["id" := Int(7)]), construct);
  }

  /** A model without an `id` attribute resolves the nullable `id` (no default)
      to `null` and `name` to its default. */
  lemma {:induction false} ModelMissingAttribute(construct: Construct)
    ensures Bootable(User)
    ensures FromModel(User, ModelResolver.Model(map[]), construct).resource ==
      [Entry("id", Null), Entry("name", Str("anon"))]
  {
    ExampleClassesAreBootable();
    BootIdName(User, BaseResolver.ModelSource(ModelResolver.Model(map[])), construct);
  }

  /** The property's `#[FromBody]` beats the class's `#[FromQuery]`: with
      `name=Ada` in the body and `name=Grace` in the query, `name` is `Ada`. */
  lemma {:induction false} PropertyTagBeatsClassTag(req: Request)
    requires req.post == map["name" := Str("Ada")]
    requires req.query == map["name" := Str("Grace")]
    ensures RequestResolver.GetPropertyValue(req, NewReflect(ClassName(TaggedUser)), "name") == Str("Ada")
  {
    var r := NewReflect(ClassName(TaggedUser));
    assert IsFirst(r.reflection.properties, PropertyNamed("name"), 1);
    assert IsFirst(r.reflection.properties[1].attributes, RequestResolver.SearchAttributes, 0);
    RequestResolver.PropertyTagWins(r, "name", 1, 0);
  }

  /** In `TaggedUser`, the untagged `id` is read from the query (the class's
      tag) and `name` from the body (its own tag). */
  lemma {:induction false} TaggedUserChannels(req: Request)
    ensures RequestResolver.GetPropertyValue(req, NewReflect(ClassName(TaggedUser)), "id") == Lookup(req.query, "id")
    ensures RequestResolver.GetPropertyValue(req, NewReflect(ClassName(TaggedUser)), "name") == Lookup(req.post, "name")
  {
    var r := NewReflect(ClassName(TaggedUser));
    assert IsFirst(r.reflection.properties, PropertyNamed("id"), 0);
    assert NoneMatch(GetPropertyAttributes(r, "id"), RequestResolver.SearchAttributes);
    assert IsFirst(r.reflection.attributes, RequestResolver.SearchAttributes, 0);
    RequestResolver.ClassTagApplies(r, "id", 0);
    assert IsFirst(r.reflection.properties, PropertyNamed("name"), 1);
    assert IsFirst(r.reflection.properties[1].attributes, RequestResolver.SearchAttributes, 0);
    RequestResolver.PropertyTagWins(r, "name", 1, 0);
  }

  /** An untagged property of a `#[FromQuery]` class is read from the query,
      and the body-tagged `name` missing from the body falls back to its
      default: with query `id=3` and an empty body, the DTO holds
      `['id' => 3, 'name' => 'anon']`. */
  lemma {:induction false} ClassTagReadsQuery(req: Request, construct: Construct)
    requires req.query == map["id" := Int(3)]
    requires req.post == map[]
    ensures Bootable(TaggedUser)
    ensures FromRequest(TaggedUser, req, construct).resource == [Entry("id", Int(3)), Entry("name", Str("anon"))]
  {
    ExampleClassesAreBootable();
    TaggedUserChannels(req);
    var r := NewReflect(ClassName(TaggedUser));
    var id := BaseResolver.GetPropertyValue(BaseResolver.RequestSource(req), r, "id");
    var name := BaseResolver.GetPropertyValue(BaseResolver.RequestSource(req), r, "name");
    assert id == Lookup(req.query, "id") == Int(3);
    assert name == Lookup(req.post, "name") == Null;
    BootIdName(TaggedUser, BaseResolver.RequestSource(req), construct);
  }

  /** Items `a:1, b:2, a:3` project to `['a' => 3, 'b' => 2]`: the repeated key
      keeps its first position and takes the last value. */
  lemma {:induction false} RepeatedNameProjection()
    ensures PropertyCollection.ToAssocArray([Make("a", Int(1)), Make("b", Int(2)), Make("a", Int(3))]) ==
      [Entry("a", Int(3)), Entry("b", Int(2))]
  {
    var c := [Make("a", Int(1)), Make("b", Int(2)), Make("a", Int(3))];
    assert c[..2][..1] == [Make("a", Int(1))];
    assert PropertyCollection.ToAssocArray(c[..2][..1]) == [Entry("a", Int(1))];
    assert PropertyCollection.ToAssocArray(c[..2]) == [Entry("a", Int(1)), Entry("b", Int(2))] by {
      assert FirstIndex([Entry("a", Int(1))], KeyIs("b")) == None;
    }
    assert FirstIndex([Entry("a", Int(1)), Entry("b", Int(2))], KeyIs("a")) == Some(0);
  }

  /** Right after `fromArray`, `toArray` returns the booted snapshot, and keeps
      returning it whatever the object's properties hold. */
  lemma {:induction false} SnapshotIsStable(construct: Construct, state: map<string, Value>)
    ensures Bootable(User)
    ensures ToArray(FromArray(User, map["id" := Int(7)], construct)).1 ==
      Success([Entry("id", Int(7)), Entry("name", Str("anon"))])
    ensures ToArray(FromArray(User, map["id" := Int(7)], construct).(obj := Instance(User, state))).1 ==
      Success([Entry("id", Int(7)), Entry("name", Str("anon"))])
  {
    ArrayFillsDefault(construct);
    BootThenGetResource(User, BaseResolver.ArraySource(map["id" := Int(7)]), construct);
  }
}
