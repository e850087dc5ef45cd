/**
 * The property map builder: a dictionary from wire key to property, filled
 * from the type's properties in enumeration order, a later property
 * overwriting an earlier one with the same key.
 */
module PropertyMaps {
  import opened Wrappers
  import opened Types
  import opened Naming

  /**
   * A `Dictionary<string, PropertyInfo>`: its entries, and its keys in the
   * order they were first inserted, which is the order in which the
   * dictionary enumerates its values when nothing has been removed.
   */
  datatype PropertyDict = PropertyDict(keys: seq<string>, entries: map<string, Property>) {

    ghost predicate Valid() {
      && (forall k :: k in entries <==> k in keys)
      && (forall i, j :: 0 <= i < j < |keys| ==> keys[i] != keys[j])
    }

    /** `TryGetValue`: the property under `key`, or null. */
    function TryGetValue(key: string): (p: Option<Property>)
      ensures p.Some? <==> key in entries
      ensures p.Some? ==> p.value == entries[key]
    {
      if key in entries then Some(entries[key]) else None
    }

    /** The indexer `d[key] = value`: overwrite in place, or append a new key. */
    function Put(key: string, value: Property): (d: PropertyDict)
      requires Valid()
      ensures d.Valid()
      ensures d.entries == entries[key := value]
      ensures key in entries ==> d.keys == keys
      ensures key !in entries ==> d.keys == keys + [key]
    {
      if key in entries then PropertyDict(keys, entries[key := value])
      else PropertyDict(keys + [key], entries[key := value])
    }

    /** `Values.ToArray()`: one value per key, in key order, and nothing else. */
    function Values(): (vs: seq<Property>)
      requires Valid()
      ensures |vs| == |keys| == |entries|
      ensures forall i :: 0 <= i < |keys| ==> vs[i] == entries[keys[i]]
      ensures forall p :: p in vs <==> p in entries.Values
    {
      DistinctKeysCardinality(keys, entries.Keys);
      var vs := seq(|keys|, i requires 0 <= i < |keys| => entries[keys[i]]);
      assert forall p :: p in entries.Values ==> p in vs by {
        forall p | p in entries.Values
          ensures p in vs
        {
          var k :| k in entries && entries[k] == p;
          var i :| 0 <= i < |keys| && keys[i] == k;
          assert vs[i] == p;
        }
      }
      vs
    }
  }

  /** A sequence of distinct keys has as many elements as the set it lists. */
  lemma {:induction false} DistinctKeysCardinality(keys: seq<string>, s: set<string>)
    requires forall k :: k in s <==> k in keys
    requires forall i, j :: 0 <= i < j < |keys| ==> keys[i] != keys[j]
    ensures |keys| == |s|
  {
    if keys != [] {
      var last := keys[|keys| - 1];
      var init := keys[..|keys| - 1];
      assert forall k :: k in s - {last} <==> k in init;
      DistinctKeysCardinality(init, s - {last});
    }
  }

  /**
   * The map the `foreach` loop builds: each property, in enumeration order,
   * stored under its wire key.
   */
  function PropertyMapOf(props: seq<Property>): (d: PropertyDict)
    ensures d.Valid()
    decreases |props|
  {
    if props == [] then PropertyDict([], map[])
    else
      var last := props[|props| - 1];
      PropertyMapOf(props[..|props| - 1]).Put(GetJsonKeyForProperty(last), last)
  }

  /** The loop of `GetPropertyMap`: a fresh dictionary, then `propMap[key] = prop` for each property. */
  method BuildPropertyMap(props: seq<Property>) returns (propMap: PropertyDict)
    ensures propMap.Valid()
    ensures propMap == PropertyMapOf(props)
  {
    propMap := PropertyDict([], map[]);
    for i := 0 to |props|
      invariant propMap == PropertyMapOf(props[..i])
    {
      assert props[..i + 1][..i] == props[..i];
      propMap := propMap.Put(GetJsonKeyForProperty(props[i]), props[i]);
    }
    assert props[..|props|] == props;
  }

  /** Every key of the map is the wire key of the property it maps to, and that property belongs to the type. */
  lemma {:induction false} PropertyMapKeysAreFormattedNames(props: seq<Property>)
    ensures forall k :: k in PropertyMapOf(props).entries ==>
      && k == GetJsonKeyForProperty(PropertyMapOf(props).entries[k])
      && PropertyMapOf(props).entries[k] in props
  {
    if props != [] {
      var init := props[..|props| - 1];
      PropertyMapKeysAreFormattedNames(init);
      assert forall p :: p in init ==> p in props;
    }
  }

  /** Every property of the type has its wire key in the map. */
  lemma {:induction false} EveryPropertyHasKey(props: seq<Property>)
    ensures forall i :: 0 <= i < |props| ==> GetJsonKeyForProperty(props[i]) in PropertyMapOf(props).entries
  {
    if props != [] {
      var init := props[..|props| - 1];
      EveryPropertyHasKey(init);
      assert forall i :: 0 <= i < |init| ==> init[i] == props[i];
    }
  }

  /** Last write wins: the last property with a given wire key is the one the map holds. */
  lemma {:induction false} LastWriteWins(props: seq<Property>, i: nat)
    requires i < |props|
    requires forall j :: i < j < |props| ==> GetJsonKeyForProperty(props[j]) != GetJsonKeyForProperty(props[i])
    ensures GetJsonKeyForProperty(props[i]) in PropertyMapOf(props).entries
    ensures PropertyMapOf(props).entries[GetJsonKeyForProperty(props[i])] == props[i]
  {
    EveryPropertyHasKey(props);
    if i < |props| - 1 {
      var init := props[..|props| - 1];
      LastWriteWins(init, i);
    }
  }

  /**
   * `GetPropertyForJsonKey`: a key is found exactly when some property of the
   * type formats to it, and what is found is such a property; a missing key
   * gives null rather than an exception.
   */
  lemma PropertyForJsonKey(props: seq<Property>, jsonKey: string)
    ensures PropertyMapOf(props).TryGetValue(jsonKey).Some?
        <==> exists i :: 0 <= i < |props| && GetJsonKeyForProperty(props[i]) == jsonKey
    ensures PropertyMapOf(props).TryGetValue(jsonKey).Some? ==>
      && PropertyMapOf(props).TryGetValue(jsonKey).value in props
      && GetJsonKeyForProperty(PropertyMapOf(props).TryGetValue(jsonKey).value) == jsonKey
  {
    PropertyMapKeysAreFormattedNames(props);
    EveryPropertyHasKey(props);
    var d := PropertyMapOf(props);
    if jsonKey in d.entries {
      var p := d.entries[jsonKey];
      var i :| 0 <= i < |props| && props[i] == p;
      assert GetJsonKeyForProperty(props[i]) == jsonKey;
    }
  }

  /** `GetProperties`: the values are exactly the properties the map holds, each a property of the type. */
  lemma PropertiesAreMapValues(props: seq<Property>)
    ensures forall p :: p in PropertyMapOf(props).Values() ==>
      p in props && PropertyMapOf(props).TryGetValue(GetJsonKeyForProperty(p)) == Some(p)
  {
    PropertyMapKeysAreFormattedNames(props);
  }

  /**
   * When no two properties share a wire key, the keys are the properties'
   * wire keys in enumeration order.
   */
  lemma {:induction false} DistinctKeysInOrder(props: seq<Property>)
    requires forall i, j :: 0 <= i < j < |props| ==> GetJsonKeyForProperty(props[i]) != GetJsonKeyForProperty(props[j])
    ensures |PropertyMapOf(props).keys| == |props|
    ensures forall i :: 0 <= i < |props| ==> PropertyMapOf(props).keys[i] == GetJsonKeyForProperty(props[i])
  {
    if props != [] {
      var init := props[..|props| - 1];
      DistinctKeysInOrder(init);
      var last := GetJsonKeyForProperty(props[|props| - 1]);
      assert last !in PropertyMapOf(init).keys;
    }
  }

  /**
   * When no two properties share a wire key, `GetProperties` gives back
   * every property of the type, in enumeration order.
   */
  lemma DistinctKeysKeepAllProperties(props: seq<Property>)
    requires forall i, j :: 0 <= i < j < |props| ==> GetJsonKeyForProperty(props[i]) != GetJsonKeyForProperty(props[j])
    ensures PropertyMapOf(props).Values() == props
  {
    DistinctKeysInOrder(props);
    var vs := PropertyMapOf(props).Values();
    forall i | 0 <= i < |props|
      ensures vs[i] == props[i]
    {
      LastWriteWins(props, i);
    }
  }
}
