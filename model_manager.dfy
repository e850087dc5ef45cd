/**
 * The metadata registry: one `ModelManager` owns three caches, filled on the
 * first query for a type and read on every later one.
 */
module Core {
  import opened Wrappers
  import opened Types
  import opened Naming
  import opened Collections
  import opened Identity
  import opened PropertyMaps
  import opened TypeKeys

  class ModelManager {
    /** The injected pluralization service. */
    const pluralize: string -> string

    /** The three caches, keyed by type. */
    var idProperties: map<TypeDesc, Property>
    var propertyMaps: map<TypeDesc, PropertyDict>
    var jsonKeysForType: map<TypeDesc, string>

    /** Every title handed to the pluralization service, in order. */
    ghost var pluralized: seq<string>

    /**
     * The identity and property-map caches hold, under each type, the answer
     * a fresh query would compute; the key cache holds, under each type, the
     * key computed from that type's own title.
     */
    ghost predicate Valid()
      reads this
    {
      && (forall t :: t in idProperties ==> FindIdProperty(t.fullName, t.props) == Success(idProperties[t]))
      && (forall t :: t in propertyMaps ==> propertyMaps[t] == PropertyMapOf(t.props))
      && KeyCacheConsistent(pluralize, jsonKeysForType)
    }

    constructor (pluralizationService: string -> string)
      ensures Valid()
      ensures pluralize == pluralizationService
      ensures idProperties == map[] && propertyMaps == map[] && jsonKeysForType == map[]
      ensures pluralized == []
    {
      pluralize := pluralizationService;
      idProperties := map[];
      propertyMaps := map[];
      jsonKeysForType := map[];
      pluralized := [];
    }

    /**
     * The identity property of `t`, from the cache or found and cached. A type
     * without exactly one property named `Id` fails and nothing is cached;
     * no other entry ever changes.
     */
    method GetIdProperty(t: TypeDesc) returns (r: Result<Property, Error>)
      requires Valid()
      modifies this`idProperties
      ensures Valid()
      ensures r == FindIdProperty(t.fullName, t.props)
      ensures t in old(idProperties) ==> r == Success(old(idProperties)[t]) && idProperties == old(idProperties)
      ensures t !in old(idProperties) && r.Success? ==> idProperties == old(idProperties)[t := r.value]
      ensures r.Failure? ==> idProperties == old(idProperties)
    {
      if t in idProperties {
        return Success(idProperties[t]);
      }
      r := FindIdProperty(t.fullName, t.props);
      if r.Failure? {
        return;
      }
      idProperties := idProperties[t := r.value];
    }

    /** The property map of `t`, from the cache or built and cached. */
    method GetPropertyMap(t: TypeDesc) returns (propMap: PropertyDict)
      requires Valid()
      modifies this`propertyMaps
      ensures Valid()
      ensures propMap == PropertyMapOf(t.props)
      ensures t in old(propertyMaps) ==> propertyMaps == old(propertyMaps)
      ensures propertyMaps == old(propertyMaps)[t := propMap]
    {
      if t in propertyMaps {
        return propertyMaps[t];
      }
      propMap := BuildPropertyMap(t.props);
      propertyMaps := propertyMaps[t := propMap];
    }

    /** The values of the property map of `t`. */
    method GetProperties(t: TypeDesc) returns (props: seq<Property>)
      requires Valid()
      modifies this`propertyMaps
      ensures Valid()
      ensures props == PropertyMapOf(t.props).Values()
      ensures forall p :: p in props ==> p in t.props
      ensures propertyMaps == old(propertyMaps)[t := PropertyMapOf(t.props)]
    {
      var propMap := GetPropertyMap(t);
      PropertiesAreMapValues(t.props);
      props := propMap.Values();
    }

    /** The property of `t` whose wire key is `jsonKey`, or null when there is none. */
    method GetPropertyForJsonKey(t: TypeDesc, jsonKey: string) returns (prop: Option<Property>)
      requires Valid()
      modifies this`propertyMaps
      ensures Valid()
      ensures prop == PropertyMapOf(t.props).TryGetValue(jsonKey)
      ensures prop.Some? <==> exists i :: 0 <= i < |t.props| && GetJsonKeyForProperty(t.props[i]) == jsonKey
      ensures prop.Some? ==> prop.value in t.props && GetJsonKeyForProperty(prop.value) == jsonKey
      ensures propertyMaps == old(propertyMaps)[t := PropertyMapOf(t.props)]
    {
      var propMap := GetPropertyMap(t);
      PropertyForJsonKey(t.props, jsonKey);
      prop := propMap.TryGetValue(jsonKey);
    }

    /**
     * The wire key of `t`. A hit returns the cached key without calling the
     * pluralization service. A miss replaces a to-many `t` by its element
     * type, pluralizes that type's title and `Add`s the key under that
     * element type, which fails when the element type is cached already.
     */
    method GetJsonKeyForType(t: TypeDesc) returns (r: Result<string, Error>)
      requires Valid()
      modifies this`jsonKeysForType, this`pluralized
      ensures Valid()
      ensures r == KeyForType(pluralize, old(jsonKeysForType), t).result
      ensures jsonKeysForType == KeyForType(pluralize, old(jsonKeysForType), t).cache
      ensures t in old(jsonKeysForType) ==> pluralized == old(pluralized)
      ensures pluralized == old(pluralized) + match KeyForType(pluralize, old(jsonKeysForType), t).pluralized
        case Some(title) => [title]
        case None => []
    {
      if t in jsonKeysForType {
        return Success(jsonKeysForType[t]);
      }
      var chosen := t;
      if IsSerializedAsMany(t) {
        var elem := GetElementType(t);
        if elem.None? {
          return Failure(NoElementType(t.name));
        }
        chosen := elem.value;
      }
      var title := TypeTitle(chosen);
      var plural := pluralize(title);
      pluralized := pluralized + [title];
      if |plural| == 0 {
        return Failure(EmptyName);
      }
      var key := FormatPropertyName(plural);
      if chosen in jsonKeysForType {
        return Failure(DuplicateKey(chosen.name));
      }
      jsonKeysForType := jsonKeysForType[chosen := key];
      r := Success(key);
    }
  }

  /**
   * Two identity queries on a fresh manager: the second is answered from the
   * cache and gives the same property, or the same failure.
   */
  method IdPropertyQueriedTwice(pluralizationService: string -> string, t: TypeDesc)
    returns (first: Result<Property, Error>, second: Result<Property, Error>)
    ensures second == first
    ensures first.Success? <==> CountNamed(t.props, ID_NAME) == 1
  {
    var manager := new ModelManager(pluralizationService);
    first := manager.GetIdProperty(t);
    second := manager.GetIdProperty(t);
  }

  /**
   * Two key queries for the same collection type on a fresh manager: when the
   * first succeeds, the second fails on the duplicate element-type entry.
   */
  method CollectionKeyQueriedTwice(pluralizationService: string -> string, t: TypeDesc, e: TypeDesc)
    returns (first: Result<string, Error>, second: Result<string, Error>)
    requires IsSerializedAsMany(t) && GetElementType(t) == Some(e) && e != t
    ensures first == KeyFromTitle(pluralizationService, e)
    ensures first.Success? ==> second == Failure(DuplicateKey(e.name))
  {
    var manager := new ModelManager(pluralizationService);
    first := manager.GetJsonKeyForType(t);
    if first.Success? {
      RepeatedCollectionQueryFails(pluralizationService, map[], t);
    }
    second := manager.GetJsonKeyForType(t);
  }
}
