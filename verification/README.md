# LTO resolution engine, in Dafny

This project models the core of `serter35/lto`, a PHP library that builds
data-transfer objects (DTOs) from a Laravel request, a plain array, an
Eloquent model or any other object. It covers:

- **The resolution engine.** For each constructor parameter of the DTO
  class, in declaration order, it fetches a value from a *resolver*, which
  is an array, a model, an object or a request. It then records the
  parameter's name, the value, the declared type and the default as a
  *resolved property*.
- **The projection.** The collection of resolved properties is projected to
  a PHP associative array. Each field's effective value there is
  `value ?? default`.
- **The DTO snapshot.** `BaseDTO` keeps that projection as its `resource`
  snapshot, and rebuilds it from the object's own properties when the
  snapshot is empty.
- **The request resolver.** It chooses, per field, which request channel to
  read. A qualifying attribute on the property wins. Otherwise a qualifying
  attribute on the class applies. Otherwise the generic input is read under
  the parameter's name.

How the model represents the PHP side:

- **Values.** `PhpValue.Value` has a single `Null` for both PHP `null` and
  "absent", as `isset` and `??` treat them.
- **Arrays.** PHP ordered arrays are sequences of entries
  (`PhpArray.Assoc`). Assigning to a key that already exists overwrites it
  at its first position.
- **Reflection.** PHP reflection becomes a metadata record
  (`Reflection.ClassMeta`) plus a live instance (`Reflection.Instance`). An
  uninitialized typed property is a name missing from the instance's state.
- **Resolvers.** The four resolver classes form one closed datatype,
  `BaseResolver.Resolver`, and the abstract `getPropertyValue` dispatches
  over it.
- **Request channels and constructors.** The query, body, generic-input and
  route channels of a request are plain maps. The user's constructor
  (`newInstanceArgs`) is a function parameter of `BaseDto.Boot`.

Modules follow the source files:

| module | source |
|---|---|
| `PhpValue`, `PhpArray`, `Search` | PHP `null`/`isset`/`??`, ordered arrays, `foreach`-return-first loops |
| `ResolvedProperties` | src/ResolvedProperty.php |
| `PropertyCollection` | src/ResolvedPropertyCollection.php |
| `Reflection` | src/Helpers/Reflect.php |
| `RequestSources` | src/Attributes/Request/*.php, src/Resolvers/Request/RequestParameterValueResolver.php, src/Resolvers/Request/RequestParameterDefaultValueContract.php |
| `RequestResolver` | src/Resolvers/Request/RequestResolver.php |
| `ArrayResolver`, `ModelResolver`, `ObjectResolver` | the three simple resolvers |
| `BaseResolver` | src/Resolvers/BaseResolverContract.php |
| `BaseDto` | src/BaseDTO.php |
| `Scenarios` | worked examples across the modules |

Error paths and edge cases of the code that shape the model:

- **Parameter without a same-named property.** `getProperty` returns `null`
  for such a parameter, and `getResolvedProperty` takes a non-nullable
  `\ReflectionProperty`, so the call throws a `TypeError`.
  `BaseResolver.CanResolve` and `BaseDto.Bootable` require every parameter
  to have a same-named property.
- **Null versus absent.** Every fetch yields `null` for a missing key: the
  array, model and object resolvers through `?? null`, the request channels
  through their `null` default. Every fallback is `??` or `isset`. So a
  supplied `null` and a missing key behave the same, and `Value.Null` stands
  for both.
- **Setting a field of a missing name.** `setValue` on a name that no item
  has dereferences `null`, which is a fatal error.
  `PropertyCollection.SetValue` requires the name to be present.
- **Uninitialized properties.** `Reflect::getPropertyValue` on a declared
  but uninitialized typed property throws. `Reflection.GetPropertyValue`
  returns `Failure(UninitializedProperty(name))` there. In
  `BaseDto.GetResource`, such a failure leaves the partly rebuilt snapshot
  stored.

## Model

| member | source | states |
|---|---|---|
| ResolvedProperties.Make | src/ResolvedProperty.php:18-28 | `make` stores exactly the given name, value, type and default |
| ResolvedProperties.MakeOmittedArguments | src/ResolvedProperty.php:18-28 | omitted type and default are null, so the effective value is the given value and the field is not defaulted |
| ResolvedProperties.GetValue | src/ResolvedProperty.php:55-58 | the effective value is the value whenever it is set, the default otherwise; it is null exactly when both are null |
| ResolvedProperties.IsDefault | src/ResolvedProperty.php:40-43 | holds iff the value is unset and the default is set; then the effective value is the (non-null) default |
| ResolvedProperties.IsType | src/ResolvedProperty.php:45-48 | holds iff the stored type name is the given one; never for an untyped field |
| ResolvedProperties.IsName | src/ResolvedProperty.php:50-53 | holds iff the stored name is the given one |
| ResolvedProperties.Assign | src/ResolvedPropertyCollection.php:53 | assigning one field changes that field only |
| PropertyCollection.Push | src/ResolvedPropertyCollection.php:15-20 | the collection grows by one at the end; earlier items are unchanged |
| PropertyCollection.Get | src/ResolvedPropertyCollection.php:28-36 | returns the first item with the name, and none exactly when no item has it |
| PropertyCollection.GetIsFirstIsName | src/ResolvedPropertyCollection.php:28-36 | `get(k)` returns the first item on which `isName(k)` holds |
| PropertyCollection.GetNoneIffNoIsName | src/ResolvedPropertyCollection.php:28-36 | `get(k)` returns null exactly when `isName(k)` holds on no item |
| PropertyCollection.ToAssocArray | src/ResolvedPropertyCollection.php:38-47 | the projection has unique keys, and a key exactly when some item has that name |
| PropertyCollection.ToAssocArrayValue | src/ResolvedPropertyCollection.php:42-44 | under each name the projection holds the effective value of the last item with that name |
| PropertyCollection.ToAssocArrayMissing | src/ResolvedPropertyCollection.php:38-47 | a name no item has reads as null in the projection |
| PropertyCollection.ToAssocArrayOrder | src/ResolvedPropertyCollection.php:40-44 | keys appear in the order in which each name was first pushed |
| PropertyCollection.ToAssocArrayOrderStep | src/ResolvedPropertyCollection.php:42-44 | pushing one item keeps keys in first-push order |
| PropertyCollection.FirstPosKept | src/ResolvedPropertyCollection.php:15-20 | a push moves no first position of a name already in the projection |
| PropertyCollection.OrderStepOverwrite | src/ResolvedPropertyCollection.php:43 | overwriting an existing key keeps the keys' first-push order |
| PropertyCollection.OrderStepAppend | src/ResolvedPropertyCollection.php:43 | appending a new name keeps the keys' first-push order, the new key last |
| PropertyCollection.FirstPosPush | src/ResolvedPropertyCollection.php:15-20 | pushing moves no name's first position; a new name is first seen at the end |
| PropertyCollection.ToAssocArrayDistinct | src/ResolvedPropertyCollection.php:38-47 | with distinct names the projection is one entry per item, in push order, holding its effective value |
| PropertyCollection.Has | src/ResolvedPropertyCollection.php:22-26 | `has` holds iff some item has the name, even when its effective value is null |
| PropertyCollection.HasIffGet | src/ResolvedPropertyCollection.php:22-36 | `has(k)` holds iff `get(k)` is not null |
| PropertyCollection.SetValue | src/ResolvedPropertyCollection.php:49-56 | only the first item with the name changes, and only in the assigned field |
| PhpArray.Put | src/ResolvedPropertyCollection.php:43 | assignment to an existing key overwrites it at its first position, otherwise appends |
| PhpArray.PutSpec | src/ResolvedPropertyCollection.php:43 | after assignment the key holds the value, other keys keep theirs, the key set grows by that key only, keys stay unique |
| PhpArray.GetUnique | src/ResolvedPropertyCollection.php:43 | with unique keys each entry's value is what its key reads |
| PhpArray.AsMap | src/Resolvers/Object/ObjectResolverContract.php:17 | an object whose properties hold an array has a property exactly for each key, holding what that key reads |
| PhpValue.LookupMissIsNull | src/Resolvers/Array/ArrayResolver.php:16 | a lookup is null exactly when the key is missing or holds null, otherwise it is the stored value |
| Search.FirstIndex | src/Helpers/Reflect.php:45-53 | the returned position is the first match, and none is returned exactly when nothing matches |
| Search.Find | src/Helpers/Reflect.php:45-53 | the result is the element at the first match, and exists exactly when a first match does |
| Search.FirstIndexIsTheFirst | src/Helpers/Reflect.php:45-53 | any position that is the first match is the one the scan returns |
| Search.FirstIndexAppend | src/ResolvedPropertyCollection.php:30-35 | appending an element does not move an existing first match |
| Reflection.PropertyOf | src/Helpers/Reflect.php:68-75 | the first declared property with the name, of any visibility; none exactly when undeclared |
| Reflection.BlankInstance | src/Helpers/Reflect.php:26 | an instance built without the constructor holds exactly the properties that have an initial value |
| Reflection.CreateContext | src/Helpers/Reflect.php:23-28 | the context is the object itself, or for a class name the blank instance built without the constructor |
| Reflection.NewReflect | src/Helpers/Reflect.php:17-21 | the metadata and the context always describe the same class |
| Reflection.GetConstructorParams | src/Helpers/Reflect.php:35-38 | the parameters of the declared constructor, in declaration order |
| Reflection.ConstructorParamsIgnoreContext | src/Helpers/Reflect.php:17-21 | a reflector on the class name and one on an instance of it list the same constructor parameters |
| Reflection.FindAttribute | src/Helpers/Reflect.php:45-53 | the first class attribute satisfying the predicate, none exactly when none does |
| Reflection.PublicOnly | src/Helpers/Reflect.php:63-66 | keeps exactly the public properties |
| Reflection.GetProperties | src/Helpers/Reflect.php:63-66 | lists exactly the public declared properties |
| Reflection.GetProperty | src/Helpers/Reflect.php:68-75 | none for an undeclared name instead of an error; otherwise a declared property with that name |
| Reflection.GetPropertyIgnoresVisibility | src/Helpers/Reflect.php:63-75 | a non-public property is found by `getProperty` but not listed by `getProperties` |
| Reflection.GetPropertyValue | src/Helpers/Reflect.php:77-80 | null for an undeclared name, the context's value for an initialized property, an error for an uninitialized one |
| Reflection.GetPropertyAttributes | src/Helpers/Reflect.php:86-89 | empty for an undeclared name, otherwise the first same-named property's attributes |
| Reflection.FindPropertyAttribute | src/Helpers/Reflect.php:91-99 | the first attribute of the property satisfying the predicate; none for an undeclared property |
| RequestSources.EffectiveName | src/Attributes/Request/FromQuery.php:18 | a non-null override is the lookup key, the parameter name otherwise |
| RequestSources.GetInput | src/Attributes/Request/FromQuery.php:16-19 | each contract reads its own channel under the effective key; the default contract reads generic input under the parameter name |
| RequestSources.GetInputReadsOneChannel | src/Attributes/Request/FromBody.php:16-19 | requests that agree on a contract's channel give that contract the same value |
| RequestSources.EmptyOverrideIsUsed | src/Attributes/Request/FromRequestContract.php:18 | an empty-string override is still the lookup key |
| RequestSources.DefaultConstructedTags | src/Resolvers/Request/RequestParameterDefaultValueContract.php:10-13 | tags without an override read their channel under the parameter name; `FromRequestContract` then equals the default contract |
| RequestSources.GetValue | src/Resolvers/Request/RequestParameterValueResolver.php:14-17 | delegates to the contract with the stored request and the unchanged name |
| RequestResolver.SearchAttributes | src/Resolvers/Request/RequestResolver.php:40-46 | an attribute qualifies exactly when its class is that of one of the four request tags |
| RequestResolver.NewInstanceInverse | src/Resolvers/Request/RequestResolver.php:37 | `newInstance` on a qualifying attribute loses nothing: its class and override are recovered from the contract, and each tag contract comes from such an attribute |
| RequestResolver.NewInstance | src/Resolvers/Request/RequestResolver.php:37 | each qualifying attribute instantiates the contract of its own class with its override |
| RequestResolver.GetRequestParameterValue | src/Resolvers/Request/RequestResolver.php:32-38 | the first qualifying property attribute wins; without one, the first qualifying class attribute; the default contract exactly when neither level has one |
| RequestResolver.GetPropertyValue | src/Resolvers/Request/RequestResolver.php:25-30 | the value is the selected contract's input for the field's name |
| RequestResolver.PropertyTagWins | src/Resolvers/Request/RequestResolver.php:34-35 | a qualifying property attribute decides whatever the class carries |
| RequestResolver.ClassTagApplies | src/Resolvers/Request/RequestResolver.php:35 | without a qualifying property attribute, or without the property, the first qualifying class attribute decides |
| RequestResolver.UntaggedReadsInput | src/Resolvers/Request/RequestResolver.php:37 | with no qualifying attribute at either level, the field is read from generic input under its name |
| ArrayResolver.GetPropertyValue | src/Resolvers/Array/ArrayResolver.php:14-17 | a present entry is returned as stored, `null` included; a missing one gives null |
| ArrayResolver.IgnoresReflect | src/Resolvers/Array/ArrayResolver.php:14-17 | the fetch depends on the data and the name only |
| ModelResolver.GetPropertyValue | src/Resolvers/EloquentModel/ModelResolver.php:15-20 | a present attribute of the flattened model is returned as stored, `null` included; a missing one gives null |
| ModelResolver.IgnoresReflect | src/Resolvers/EloquentModel/ModelResolver.php:15-20 | the fetch depends on the model and the name only |
| ObjectResolver.GetPropertyValue | src/Resolvers/Object/ObjectResolverContract.php:15-18 | an accessible property holding a value is returned as stored, `null` included; an uninitialized, missing or inaccessible one gives null |
| ObjectResolver.IgnoresReflect | src/Resolvers/Object/ObjectResolverContract.php:15-18 | the fetch depends on the object and the name only |
| BaseResolver.GetPropertyValue | src/Resolvers/BaseResolverContract.php:13 | each resolver reads its own backend, yielding null for a missing key; the request resolver reads the input of the contract its tags select |
| BaseResolver.OnlyRequestConsultsReflect | src/Resolvers/BaseResolverContract.php:13 | every resolver but the request resolver reads the same value whatever reflector it is handed |
| BaseResolver.GetResolvedProperty | src/Resolvers/BaseResolverContract.php:40-48 | the field takes the parameter's name and type, the fetched value, and the default only when one is available |
| BaseResolver.ResolveParams | src/Resolvers/BaseResolverContract.php:27-35 | one item per parameter, in order, each with the parameter's name, type and default and the backend's value |
| BaseResolver.Resolve | src/Resolvers/BaseResolverContract.php:19-38 | no parameters give an empty collection; otherwise item `i` is parameter `i` resolved through the backend |
| BaseResolver.MissingWithoutDefaultIsNull | src/Resolvers/BaseResolverContract.php:46 | a missed value without a default has a null effective value and is not defaulted |
| BaseResolver.MissingWithDefaultUsesDefault | src/Resolvers/BaseResolverContract.php:46 | a missed value falls back to the parameter's default |
| BaseResolver.ResolveIsType | src/Resolvers/BaseResolverContract.php:45 | `isType(t)` holds on item `i` exactly when parameter `i` is declared with type name `t` |
| BaseResolver.ObjectResolveReadsProperties | src/Resolvers/Object/ObjectResolverContract.php:17 | through `resolve`, each item holds the object's same-named accessible property, or null |
| BaseResolver.SameProjection | src/ResolvedPropertyCollection.php:38-47 | collections with the same distinct names and effective values project alike |
| BaseResolver.RoundTripField | src/Resolvers/Object/ObjectResolverContract.php:17 | a field read back from an object whose properties include the projection has the effective value it was projected with |
| BaseResolver.ResolveUniqueNames | src/Resolvers/BaseResolverContract.php:27-35 | distinct parameter names give distinct item names |
| BaseResolver.ObjectResolveField | src/Resolvers/BaseResolverContract.php:27-35 | the object resolver's item `i` has the name and default of any resolver's item `i` |
| BaseResolver.ObjectRoundTrip | src/Resolvers/Object/ObjectResolverContract.php:15-18 | re-resolving from an object whose properties include a projection, among any others, gives back the same projection |
| BaseDto.Boot | src/BaseDTO.php:24-34 | the stored resource is the resolved projection: with distinct names, one entry per parameter holding the fetched value or the default; the object is built from it |
| BaseDto.FromRequest | src/BaseDTO.php:51-54 | boots through the request resolver |
| BaseDto.FromArray | src/BaseDTO.php:56-59 | boots through the array resolver |
| BaseDto.FromModel | src/BaseDTO.php:61-64 | boots through the model resolver |
| BaseDto.FromObject | src/BaseDTO.php:66-69 | boots through the object resolver |
| BaseDto.FromArrayEntries | src/BaseDTO.php:56-59 | with distinct names, entry `i` is parameter `i`'s name with the array's value, or the default when that is missing or null |
| BaseDto.FromModelEntries | src/BaseDTO.php:61-64 | with distinct names, entry `i` holds the model's flattened attribute, or the default when that is missing or null |
| BaseDto.FromObjectEntries | src/BaseDTO.php:66-69 | with distinct names, entry `i` holds the object's accessible same-named property, or the default |
| BaseDto.FromRequestEntries | src/BaseDTO.php:51-54 | with distinct names, entry `i` holds the request input the tags select, or the default when that is null |
| BaseDto.Rebuild | src/BaseDTO.php:93-95 | the rebuilt array has unique keys, and no error exactly when every read succeeds |
| BaseDto.RebuildKeysAreParams | src/BaseDTO.php:93-95 | every key of the rebuilt array is the name of a constructor parameter |
| BaseDto.RebuildDistinct | src/BaseDTO.php:93-95 | with distinct names and successful reads: one entry per parameter, in order, holding its property value |
| BaseDto.RebuildStopsAtFirstFailure | src/BaseDTO.php:93-95 | the first failing read ends the loop, keeping exactly the earlier entries |
| BaseDto.FirstFailureIsTheError | src/BaseDTO.php:93-95 | the reported error belongs to a parameter whose read fails |
| BaseDto.RebuildErrorIsUnreadable | src/Helpers/Reflect.php:77-80 | that parameter's property is declared and holds no value |
| BaseDto.GetResource | src/BaseDTO.php:86-98 | a non-empty snapshot is returned unchanged whatever the properties hold; otherwise the rebuilt array is stored and returned, or the failure names an uninitialized parameter property |
| BaseDto.ToArray | src/BaseDTO.php:105-108 | `toArray` is `getResource` |
| BaseDto.GetResourceRebuilds | src/BaseDTO.php:91-97 | an empty snapshot is rebuilt as one entry per constructor parameter, in order, holding the property's value |
| BaseDto.GetResourceIdempotent | src/BaseDTO.php:86-98 | a second `getResource` returns the same array and changes nothing |
| BaseDto.FailureLeavesPartialSnapshot | src/BaseDTO.php:93-97 | after a failed read the partial snapshot is stored, and a non-empty one is returned by the next call |
| BaseDto.BootThenGetResource | src/BaseDTO.php:28-30 | right after `boot`, `getResource` returns the resolved projection and changes nothing |
| Scenarios.BootIdName | src/Resolvers/BaseResolverContract.php:40-48 | for `(id, name = "anon")`, the snapshot holds the fetched `id` and the fetched `name` or `"anon"` |
| Scenarios.ArrayFillsDefault | src/Resolvers/Array/ArrayResolver.php:16 | `(?int $id, $name = "anon")` from `['id' => 7]` gives `['id' => 7, 'name' => 'anon']` |
| Scenarios.ModelMissingAttribute | src/Resolvers/EloquentModel/ModelResolver.php:19 | for `(?int $id, $name = "anon")`, a model without attributes gives `['id' => null, 'name' => 'anon']` |
| Scenarios.PropertyTagBeatsClassTag | src/Resolvers/Request/RequestResolver.php:34-37 | a body-tagged property of a query-tagged class reads `Ada` from the body, not `Grace` from the query |
| Scenarios.TaggedUserChannels | src/Resolvers/Request/RequestResolver.php:32-37 | in a query-tagged class, an untagged field reads the query and a body-tagged one the body, for every request |
| Scenarios.ClassTagReadsQuery | src/Resolvers/Request/RequestResolver.php:35 | an untagged property of a query-tagged class reads the query |
| Scenarios.RepeatedNameProjection | src/ResolvedPropertyCollection.php:42-44 | items `a:1, b:2, a:3` project to `['a' => 3, 'b' => 2]` |
| Scenarios.SnapshotIsStable | src/BaseDTO.php:88-89 | the booted snapshot is returned whatever the object's properties hold later |
| Scenarios.ExampleClassesAreBootable | src/Resolvers/BaseResolverContract.php:29 | the example classes give every parameter a same-named property |

## Left out

- `Reflect::invokeMethod` (src/Helpers/Reflect.php:55-58). It calls arbitrary user code with arbitrary side effects.
- `ResolvedProperty::fromReflectionProperty`. It reads PHP reflection objects, which the model replaces with metadata records.
- `BaseDTO::fromContainer`, `getContainer`, `getPropsResolver` and `getPropsCollectionByResolver`. They resolve classes through the service container. The model picks the resolver directly (`BaseDto.FromRequest` and the others), and `BaseDTO::getReflect`/`setReflect` are plain field access.
- `BaseDTO::toCollection` and `toModel`. They are thin wrappers over Laravel constructors around `getResource`.
- `Validatable`, `ValidatableContract`, the artisan command and the service provider. Validation is delegated to Laravel's validator, and the rest is framework wiring.
- The interfaces `LTOContract`, `PropsResolverContract` and `RequestParameterValueContract`. They have no behaviour; their implementations are closed datatypes here (`BaseResolver.Resolver`, `RequestSources.ValueContract`).
- Laravel's `Request::input`, `query` and `post`, including how `input` merges body and query. Each is an independent map. `Model::toArray` is a stored map.
- The `FromRoute` class is not part of this model. It is a qualifying tag whose lookup is an uninterpreted map keyed by override and parameter name.
- `newInstanceArgs`, i.e. the DTO's own constructor. It is the `construct` parameter of `BaseDto.Boot`; type checks and coercions in it are not modelled.
- Magic `__get` and `__isset` on arbitrary objects. An object is a plain map of property values, and a non-public property reads as unset from outside.
- `PropertyCollection.SetValue`: the source's `$key` may name any (dynamic) property. The model allows only the four declared fields (`ResolvedProperties.FieldUpdate`), and does not model type errors from assigning, e.g., a non-string name.
- `Reflection.GetConstructorParams` and `BaseResolver.Resolve`: a class without a constructor makes the source fail with an error on `null`. The model excludes it by precondition instead of modelling the error.
- PHP integer keys and key casting in arrays. Field names are strings throughout.
- PropertyCollection.SetValue: items are values, not object handles. Nothing is shared between two positions or with the caller who pushed an item. In the source, pushing one object twice and then calling `setValue` changes both positions, and the caller's object too.
- RequestResolver.GetRequestParameterValue: a tag repeated on one declaration (say two `#[FromQuery]` on a property) makes `newInstance` throw, because `FromQuery`, `FromBody` and `FromRequestContract` are not declared repeatable. The model returns the first such tag instead of an error.
- BaseResolver.GetResolvedProperty: a parameter has at most one named type (`Param.typ`). A union or intersection type makes `getType()?->getName()` throw in the source; the model cannot represent such a parameter.
- BaseDto.Boot: construction never fails in the model. In the source, `newInstanceArgs` throws a `TypeError` when the projection passes `null` (a missed value without a default) to a non-nullable parameter, and no DTO is created.
