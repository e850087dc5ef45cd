# ModelManager: type metadata for a JSON:API serializer

This project models `ModelManager`, the type-metadata layer of the JSONAPI.NET
serializer, and proves properties of the model. For a type, the manager answers
four questions, and it caches the answers per type:

- **Identity property**: the one public property named `Id`. A type without one is a configuration error.
- **Property map**: a dictionary from each property's wire key to the property. The wire key is the property name with its first letter lower-cased. When two properties format to the same key, the later one wins.
- **Type key**: the wire name of a type. For a to-many type it is computed on the element type. The title is the `Title` of the type's `JsonObject` attribute, or the bare type name. The key is that title pluralized, then with its first letter lower-cased.
- **Collection detection**: arrays and generic types implementing `IEnumerable` are to-many. A non-generic `IEnumerable` is not. There is also element-type extraction.

Layout:

- `wrappers.dfy`: module `Wrappers`. `Option` stands for a null reference and `Result` for a thrown exception.
- `types.dfy`: module `Types`. Type and property descriptors replace .NET reflection, and `Error` lists the exceptions.
- `naming.dfy`: module `Naming`. `FormatPropertyName` and `GetJsonKeyForProperty`.
- `collections.dfy`: module `Collections`. `IsSerializedAsMany` and `GetElementType`.
- `identity.dfy`: module `Identity`. `Type.GetProperty("Id")` and the missing-`Id` exception.
- `property_maps.dfy`: module `PropertyMaps`. The `Dictionary<string, PropertyInfo>` and the loop that fills it.
- `type_keys.dfy`: module `TypeKeys`. The type-key computation and its cache step, as written and as intended.
- `model_manager.dfy`: module `Core`. The class `ModelManager` with its three caches as `map` fields.

`GetIdProperty`, `GetPropertyMap` and `GetJsonKeyForType` are methods of the class.
Each one checks its cache, computes on a miss and inserts, and each is proved against
a specification function. `Valid()` states what the caches hold. The identity and
property-map caches hold, under each type, the answer a fresh query would compute. The
key cache holds, under each type, the key computed from that type's own title, which for
a type cached by a nested-collection query is not what a fresh query would give. The
pluralization service is the `pluralize` field, given to the constructor. A ghost log
`pluralized` records every title passed to it, which shows that a cache hit does not
pluralize.

A per-type cache is meant to answer a repeated query from the cache with the same key.
That is what happens for every type that is not a collection. For a collection it does
not: the code reassigns the type to its element type before `keyCache.Add`, so the key
of a collection type is cached under its element type and never under the collection
itself. The model follows the code. The consequences are proved, and the behaviour of a
cache keyed by the queried type is under "## Findings".

## Model

| member | source | states |
|---|---|---|
| Naming.LowerChar | JSONAPI/Core/ModelManager.cs:155 | the result is never an upper-case ASCII letter; upper-case letters map to their lower-case partner and every other character is kept |
| Naming.FormatPropertyName | JSONAPI/Core/ModelManager.cs:153-157 | needs a non-empty name; the result has the same length, its first character is lower-cased, and every character from index 1 on is unchanged |
| Naming.GetJsonKeyForProperty | JSONAPI/Core/ModelManager.cs:147-151 | a property's wire key is non-empty, as long as its name, with the first character lower-cased and the rest of the name kept |
| Naming.FormatPropertyNameIdempotent | JSONAPI/Core/ModelManager.cs:153-157 | formatting a wire key again gives the same key |
| Naming.FormatPropertyNameFixedPoint | JSONAPI/Core/ModelManager.cs:153-157 | a name is its own wire key if and only if it does not start with an upper-case letter |
| Naming.FormatPropertyNameCollision | JSONAPI/Core/ModelManager.cs:153-157 | two names give the same wire key if and only if they have the same length, agree after the first character, and lower-case to the same first character |
| Collections.IsSerializedAsMany | JSONAPI/Core/ModelManager.cs:159-166 | a type is to-many if and only if it is an array, or it is generic and implements IEnumerable |
| Collections.NonGenericEnumerableIsSingle | JSONAPI/Core/ModelManager.cs:159-166 | a type that implements IEnumerable but is neither generic nor an array is not to-many |
| Collections.GetElementType | JSONAPI/Core/ModelManager.cs:168-177 | a generic type gives its first generic argument; a non-generic type gives the element type `Type.GetElementType` reports, which is null unless the type is an array, pointer or by-ref type |
| Collections.ManyTypeHasElementType | JSONAPI/Core/ModelManager.cs:168-177 | every well-formed to-many type has an element type: the array element of an array, the first generic argument of a generic enumerable |
| Identity.FindIdProperty | JSONAPI/Core/ModelManager.cs:64-67 | succeeds if and only if exactly one property is named `Id`, and then returns it; no such property gives the missing-Id error, two or more give the ambiguous-match error |
| Identity.UniqueIdPropertyIsFound | JSONAPI/Core/ModelManager.cs:64-67 | when the property at index i is the only one named `Id`, the lookup returns that property |
| PropertyMaps.PropertyDict.TryGetValue | JSONAPI/Core/ModelManager.cs:110-111 | finds a value if and only if the key is present, and then it is the stored value; a missing key gives null and no exception |
| PropertyMaps.PropertyDict.Put | JSONAPI/Core/ModelManager.cs:93 | the indexer stores the value under the key and keeps the dictionary well formed; an existing key keeps its place and a new key goes last |
| PropertyMaps.PropertyDict.Values | JSONAPI/Core/ModelManager.cs:104 | one value per key, in key order; a property appears if and only if some key maps to it |
| PropertyMaps.PropertyMapOf | JSONAPI/Core/ModelManager.cs:89-94 | the map built from the properties in order is a well-formed dictionary |
| PropertyMaps.BuildPropertyMap | JSONAPI/Core/ModelManager.cs:89-94 | the foreach loop builds exactly the map of the specification |
| PropertyMaps.PropertyMapKeysAreFormattedNames | JSONAPI/Core/ModelManager.cs:89-94 | every key of the map is the wire key of the property it maps to, and that property belongs to the type |
| PropertyMaps.EveryPropertyHasKey | JSONAPI/Core/ModelManager.cs:90-94 | every property of the type has its wire key in the map |
| PropertyMaps.LastWriteWins | JSONAPI/Core/ModelManager.cs:91-94 | among properties with the same wire key, the last one in enumeration order is the one stored |
| PropertyMaps.PropertyForJsonKey | JSONAPI/Core/ModelManager.cs:107-112 | a key is found if and only if some property formats to it, and the property found has that key and belongs to the type |
| PropertyMaps.PropertiesAreMapValues | JSONAPI/Core/ModelManager.cs:102-105 | every property that `GetProperties` returns belongs to the type and is what the map holds under its wire key |
| PropertyMaps.DistinctKeysInOrder | JSONAPI/Core/ModelManager.cs:89-94 | when no two properties share a wire key, the map's keys are the wire keys of the properties in enumeration order |
| PropertyMaps.DistinctKeysKeepAllProperties | JSONAPI/Core/ModelManager.cs:102-105 | when no two properties share a wire key, `GetProperties` returns every property of the type, in enumeration order |
| TypeKeys.TypeTitle | JSONAPI/Core/ModelManager.cs:129-137 | the title is the Title override when present and the bare type name otherwise |
| TypeKeys.ChosenType | JSONAPI/Core/ModelManager.cs:126-127 | the key is computed on the element type of a to-many type and on the type itself otherwise |
| TypeKeys.KeyFromTitle | JSONAPI/Core/ModelManager.cs:139 | fails with the empty-name error if and only if the pluralized title is empty; otherwise returns the formatted plural, which has the same length |
| TypeKeys.KeyForType | JSONAPI/Core/ModelManager.cs:116-145 | a hit returns the cached key, changes nothing and pluralizes nothing; a miss pluralizes the chosen type's title; when the chosen type is not cached the result is the key from its title, cached under the chosen type; an empty plural fails with the empty-name error; a non-empty plural for a chosen type already cached fails with the duplicate-key error; a failure leaves the cache unchanged; a cache holding only computed keys stays that way |
| TypeKeys.AsWrittenMissIsIntendedIffChosenUncached | JSONAPI/Core/ModelManager.cs:124-141 | on a miss with a cache holding only computed keys, the result is the key the type should get if and only if its chosen type is not cached already |
| TypeKeys.SingleTypeKeyIsStable | JSONAPI/Core/ModelManager.cs:122-141 | for a type that is not to-many, a second query after a success hits the cache, returns the same key and does not pluralize |
| TypeKeys.CollectionKeyComesFromElement | JSONAPI/Core/ModelManager.cs:126-139 | an array and a generic enumerable of the same element type both get the key computed from that element type's title |
| TypeKeys.TitleOverrideIsPluralized | JSONAPI/Core/ModelManager.cs:129-139 | on a miss, a type with a Title override has the override pluralized, and its key is the formatted plural of the override |
| TypeKeys.RepeatedCollectionQueryFails | JSONAPI/Core/ModelManager.cs:124-141 | after a successful query for a collection type, the type itself is still not cached, and a second query pluralizes again and fails on the duplicate key |
| TypeKeys.CollectionAfterElementFails | JSONAPI/Core/ModelManager.cs:124-141 | a collection type queried after its element type was cached fails on the duplicate key and leaves the cache unchanged |
| TypeKeys.NestedCollectionShadowsElementKey | JSONAPI/Core/ModelManager.cs:124-141 | after a nested collection such as `List<List<Person>>`, its element `List<Person>` is answered from the cache with the key from its own title, not from its element's title |
| TypeKeys.IntendedKey | JSONAPI/Core/ModelManager.cs:126-139 | the key a type should get: the key from the chosen type's title, or the null-element error |
| TypeKeys.KeyForTypeByArgument | JSONAPI/Core/ModelManager.cs:122-141 | the cache step keyed by the type that was asked about: a hit returns the cached key, a success caches the key under that type, a failure changes nothing |
| TypeKeys.ByArgumentIsHistoryIndependent | JSONAPI/Core/ModelManager.cs:122-141 | with the cache keyed by the argument, every query returns the intended key whatever was cached before, and the cache stays consistent |
| TypeKeys.ByArgumentRepeatedQueryHits | JSONAPI/Core/ModelManager.cs:122-141 | with the cache keyed by the argument, a second query after a success hits, returns the same key and does not pluralize |
| Core.ModelManager.constructor | JSONAPI/Core/ModelManager.cs:17-46 | a new manager holds the injected pluralization service and three empty caches |
| Core.ModelManager.GetIdProperty | JSONAPI/Core/ModelManager.cs:52-73 | returns the identity property, or the error; a hit returns the cached property; a success adds only the entry for this type; a failure leaves the cache unchanged |
| Core.ModelManager.GetPropertyMap | JSONAPI/Core/ModelManager.cs:79-100 | returns the map of the type's properties and caches it under the type, changing no other entry; a hit changes nothing |
| Core.ModelManager.GetProperties | JSONAPI/Core/ModelManager.cs:102-105 | returns the values of the property map, each a property of the type |
| Core.ModelManager.GetPropertyForJsonKey | JSONAPI/Core/ModelManager.cs:107-112 | returns the property whose wire key is the given key, or null if and only if no property formats to it |
| Core.ModelManager.GetJsonKeyForType | JSONAPI/Core/ModelManager.cs:116-145 | returns the result of the cache step and installs its cache; the pluralization log grows only on a miss |
| Core.IdPropertyQueriedTwice | JSONAPI/Core/ModelManager.cs:56-72 | two identity queries on one manager give the same answer, which succeeds if and only if exactly one property is named `Id` |
| Core.CollectionKeyQueriedTwice | JSONAPI/Core/ModelManager.cs:120-141 | on a fresh manager, the first key query for a collection gives its element's key, and when it succeeds the second query for the same collection fails on the duplicate key |

## Findings

| source | as written | input that shows it | evidently intended | confidence | as-written member | corrected member |
|---|---|---|---|---|---|---|
| JSONAPI/Core/ModelManager.cs:126-141 | `type` is reassigned to the element type before `keyCache.Add(type, key)`, so a collection's key is cached under its element type | `GetJsonKeyForType(typeof(List<Person>))` twice, with `Person` pluralizing to a non-empty word: the second call misses at line 124 and `Add` throws on the `Person` entry | the key is cached under the type that was asked about, so a repeated query hits and returns the same key | high; not executed | TypeKeys.RepeatedCollectionQueryFails | TypeKeys.ByArgumentRepeatedQueryHits |

The class `Core.ModelManager` keeps the as-written behaviour, because it models the code.
`TypeKeys.KeyForTypeByArgument` is the corrected cache step.
`TypeKeys.ByArgumentIsHistoryIndependent` and `TypeKeys.ByArgumentRepeatedQueryHits` prove the intended properties about it.

## Left out

- The `lock` blocks and the `Lazy<...>` wrappers around the caches. The caches are plain `map` fields and every call is sequential, so concurrent first queries are not modelled.
- The parameterless constructor, which creates the default English `PluralizationService`. Pluralization is an injected total function `string -> string` and its rules are not modelled.
- The `PluralizationService` property getter. It only returns the injected service, which is the `pluralize` field.
- .NET reflection. `Type` and `PropertyInfo` are the value descriptors `TypeDesc` and `Property`, compared by value and not by reference. `TypeDesc.fullName` is the assembly-qualified name, so two CLR types with the same bare name (`A.Person`, `B.Person`) are distinct cache keys. Two descriptors with the same full name are assumed to agree in every other field, as a loaded CLR type does.
- Overloaded indexers. Several public `Item` properties declared by one type are one `Property` value here, so an `Id` lookup or a property map cannot tell them apart.
- Null references. The model has none, so these cases are not modelled: a null `type` or `jsonKey`, which makes `Dictionary.TryGetValue` throw; a null plural from the pluralization service; and `[JsonObject(Title = null)]`, which makes `TypedValue.Value.ToString()` at line 135 throw.
- Parsing of `JsonObjectAttribute`. It is reduced to `TypeDesc.title`, the first `Title` named argument of the first such attribute.
- Naming.LowerChar: lower-cases ASCII letters only. `String.ToLower` is culture-sensitive and also maps non-ASCII letters.
- Collections.GetElementType: a generic type with no generic arguments gives null here. In .NET, `GetGenericArguments()[0]` would throw, but the CLR never produces such a type.
- The order of `GetProperties` when two properties share a wire key is the order of first insertion. This is how `Dictionary` enumerates when nothing is removed, but .NET does not document it.
- `JSONAPI.TodoMVC.API/Startup.cs`, the web host wiring. It has no metadata logic.
