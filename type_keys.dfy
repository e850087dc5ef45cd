/**
 * The type key resolver: the wire name of a type is the pluralized title of
 * the type (or of its element type, for a to-many type) with its first
 * letter decapitalised, cached per type.
 */
module TypeKeys {
  import opened Wrappers
  import opened Types
  import opened Naming
  import opened Collections

  /** The Title of the first JsonObject attribute when there is one, otherwise the bare name. */
  function TypeTitle(t: TypeDesc): (title: string)
    ensures t.title.Some? ==> title == t.title.value
    ensures t.title.None? ==> title == t.name
  {
    match t.title
    case Some(s) => s
    case None => t.name
  }

  /** The type the key is computed on: the element type of a to-many type, the type itself otherwise. */
  function ChosenType(t: TypeDesc): (e: Option<TypeDesc>)
    ensures !IsSerializedAsMany(t) ==> e == Some(t)
    ensures IsSerializedAsMany(t) ==> e == GetElementType(t)
  {
    if IsSerializedAsMany(t) then GetElementType(t) else Some(t)
  }

  /**
   * `FormatPropertyName(Pluralize(title))` on the chosen type; an empty
   * plural makes `Substring(0, 1)` throw.
   */
  function KeyFromTitle(pluralize: string -> string, e: TypeDesc): (r: Result<string, Error>)
    ensures r.Failure? <==> |pluralize(TypeTitle(e))| == 0
    ensures r.Failure? ==> r.error == EmptyName
    ensures r.Success? ==> |r.value| == |pluralize(TypeTitle(e))| > 0
    ensures r.Success? ==> r.value == FormatPropertyName(pluralize(TypeTitle(e)))
  {
    var plural := pluralize(TypeTitle(e));
    if |plural| == 0 then Failure(EmptyName) else Success(FormatPropertyName(plural))
  }

  /** What one call of `GetJsonKeyForType` gives: its result, the cache after it, and the title it pluralized, if any. */
  datatype KeyOutcome = KeyOutcome(result: Result<string, Error>, cache: map<TypeDesc, string>, pluralized: Option<string>)

  /** Every cached key is the key computed from the title of the type it is cached under. */
  ghost predicate KeyCacheConsistent(pluralize: string -> string, cache: map<TypeDesc, string>) {
    forall e :: e in cache ==> KeyFromTitle(pluralize, e) == Success(cache[e])
  }

  /**
   * `GetJsonKeyForType` as written: look the argument up; on a miss, replace
   * it by its element type when it is to-many, compute the key from that
   * type's title, and `Add` the key under that type, which throws when it is
   * already cached.
   */
  function KeyForType(pluralize: string -> string, cache: map<TypeDesc, string>, t: TypeDesc): (o: KeyOutcome)
    ensures t in cache ==> o == KeyOutcome(Success(cache[t]), cache, None)
    ensures t !in cache && ChosenType(t).Some? ==> o.pluralized == Some(TypeTitle(ChosenType(t).value))
    ensures t !in cache && ChosenType(t).None? ==> o == KeyOutcome(Failure(NoElementType(t.name)), cache, None)
    ensures o.result.Failure? ==> o.cache == cache
    ensures t !in cache && ChosenType(t).Some? && ChosenType(t).value !in cache ==>
      o.result == KeyFromTitle(pluralize, ChosenType(t).value)
    ensures t !in cache && ChosenType(t).Some? && KeyFromTitle(pluralize, ChosenType(t).value).Failure? ==>
      o.result == KeyFromTitle(pluralize, ChosenType(t).value)
    ensures (t !in cache && ChosenType(t).Some? && ChosenType(t).value in cache
             && KeyFromTitle(pluralize, ChosenType(t).value).Success?) ==>
      o.result == Failure(DuplicateKey(ChosenType(t).value.name))
    ensures t !in cache && o.result.Success? ==>
      && ChosenType(t).Some?
      && ChosenType(t).value !in cache
      && o.result == KeyFromTitle(pluralize, ChosenType(t).value)
      && o.cache == cache[ChosenType(t).value := o.result.value]
    ensures KeyCacheConsistent(pluralize, cache) ==> KeyCacheConsistent(pluralize, o.cache)
  {
    if t in cache then KeyOutcome(Success(cache[t]), cache, None)
    else
      match ChosenType(t)
      case None => KeyOutcome(Failure(NoElementType(t.name)), cache, None)
      case Some(e) =>
        var title := TypeTitle(e);
        match KeyFromTitle(pluralize, e)
        case Failure(err) => KeyOutcome(Failure(err), cache, Some(title))
        case Success(key) =>
          if e in cache then KeyOutcome(Failure(DuplicateKey(e.name)), cache, Some(title))
          else KeyOutcome(Success(key), cache[e := key], Some(title))
  }

  /** A type that is not to-many is cached under itself, so a second query hits and pluralizes nothing. */
  lemma SingleTypeKeyIsStable(pluralize: string -> string, cache: map<TypeDesc, string>, t: TypeDesc)
    requires !IsSerializedAsMany(t)
    requires KeyForType(pluralize, cache, t).result.Success?
    ensures var first := KeyForType(pluralize, cache, t);
      KeyForType(pluralize, first.cache, t) == KeyOutcome(first.result, first.cache, None)
  {
  }

  /**
   * Arrays and generic enumerables of the same element type get the key of
   * that element type, computed from the element type's title (so `Person[]`
   * and `List<Person>` both become `people` when `Person` pluralizes to `People`).
   */
  lemma CollectionKeyComesFromElement(pluralize: string -> string, elem: TypeDesc, arrayType: TypeDesc, listType: TypeDesc)
    requires WellFormed(arrayType) && arrayType.isArray && arrayType.arrayElem == Some(elem)
    requires listType.isGeneric && listType.implementsIEnumerable && |listType.genericArgs| > 0 && listType.genericArgs[0] == elem
    ensures KeyForType(pluralize, map[], arrayType).result == KeyFromTitle(pluralize, elem)
    ensures KeyForType(pluralize, map[], listType).result == KeyFromTitle(pluralize, elem)
    ensures KeyForType(pluralize, map[], arrayType).pluralized == Some(TypeTitle(elem))
  {
  }

  /** A Title override is what gets pluralized, not the bare name. */
  lemma TitleOverrideIsPluralized(pluralize: string -> string, cache: map<TypeDesc, string>, t: TypeDesc, title: string)
    requires !IsSerializedAsMany(t) && t !in cache && t.title == Some(title)
    ensures KeyForType(pluralize, cache, t).pluralized == Some(title)
    ensures |pluralize(title)| > 0 && t !in cache ==>
      KeyForType(pluralize, cache, t).result == Success(FormatPropertyName(pluralize(title)))
  {
  }

  /**
   * The key of a to-many type is cached under its element type, not under the
   * type itself: querying the same collection type again misses, recomputes,
   * pluralizes again and fails on `Add` of the element type already present.
   */
  lemma RepeatedCollectionQueryFails(pluralize: string -> string, cache: map<TypeDesc, string>, t: TypeDesc)
    requires IsSerializedAsMany(t) && GetElementType(t) != Some(t) && t !in cache
    requires KeyForType(pluralize, cache, t).result.Success?
    ensures var first := KeyForType(pluralize, cache, t);
      var second := KeyForType(pluralize, first.cache, t);
      && t !in first.cache
      && second.result.Failure? && second.result.error.DuplicateKey?
      && second.pluralized.Some?
  {
  }

  /**
   * A to-many type queried after its element type has been cached fails the
   * same way, whenever the cache holds only keys it computed itself.
   */
  lemma CollectionAfterElementFails(pluralize: string -> string, cache: map<TypeDesc, string>, t: TypeDesc, e: TypeDesc)
    requires KeyCacheConsistent(pluralize, cache)
    requires IsSerializedAsMany(t) && GetElementType(t) == Some(e) && e in cache && t !in cache
    ensures KeyForType(pluralize, cache, t).result == Failure(DuplicateKey(e.name))
    ensures KeyForType(pluralize, cache, t).cache == cache
  {
  }

  /**
   * The answer depends on what was asked before: once `List<List<Person>>`
   * has been resolved, the key of `List<Person>` is served from the cache
   * and is computed from the title of `List<Person>` itself, not from the
   * title of `Person`.
   */
  lemma NestedCollectionShadowsElementKey(pluralize: string -> string, cache: map<TypeDesc, string>, outer: TypeDesc, inner: TypeDesc)
    requires IsSerializedAsMany(outer) && GetElementType(outer) == Some(inner) && IsSerializedAsMany(inner)
    requires outer !in cache
    requires KeyForType(pluralize, cache, outer).result.Success?
    ensures var first := KeyForType(pluralize, cache, outer);
      && KeyForType(pluralize, first.cache, inner).result == KeyFromTitle(pluralize, inner)
      && KeyForType(pluralize, first.cache, inner).pluralized.None?
  {
  }

  /**
   * The cache keyed by the type that was asked about, as a per-type cache is meant to be:
   * on a miss the key is computed exactly as above and stored under `t`.
   */
  function KeyForTypeByArgument(pluralize: string -> string, cache: map<TypeDesc, string>, t: TypeDesc): (o: KeyOutcome)
    ensures t in cache ==> o == KeyOutcome(Success(cache[t]), cache, None)
    ensures o.result.Failure? ==> o.cache == cache
    ensures t !in cache && o.result.Success? ==> o.cache == cache[t := o.result.value]
  {
    if t in cache then KeyOutcome(Success(cache[t]), cache, None)
    else
      match ChosenType(t)
      case None => KeyOutcome(Failure(NoElementType(t.name)), cache, None)
      case Some(e) =>
        match KeyFromTitle(pluralize, e)
        case Failure(err) => KeyOutcome(Failure(err), cache, Some(TypeTitle(e)))
        case Success(key) => KeyOutcome(Success(key), cache[t := key], Some(TypeTitle(e)))
  }

  /** The key a type should have, with no cache involved. */
  function IntendedKey(pluralize: string -> string, t: TypeDesc): (r: Result<string, Error>)
    ensures ChosenType(t).None? ==> r == Failure(NoElementType(t.name))
    ensures ChosenType(t).Some? ==> r == KeyFromTitle(pluralize, ChosenType(t).value)
  {
    match ChosenType(t)
    case None => Failure(NoElementType(t.name))
    case Some(e) => KeyFromTitle(pluralize, e)
  }

  /**
   * On a miss with a cache holding only computed keys, the code as written
   * gives the intended key exactly when the chosen type is not cached
   * already; otherwise it fails on the duplicate.
   */
  lemma AsWrittenMissIsIntendedIffChosenUncached(pluralize: string -> string, cache: map<TypeDesc, string>, t: TypeDesc)
    requires KeyCacheConsistent(pluralize, cache) && t !in cache
    ensures KeyForType(pluralize, cache, t).result == IntendedKey(pluralize, t)
        <==> ChosenType(t).None? || ChosenType(t).value !in cache
  {
    if ChosenType(t).Some? && ChosenType(t).value in cache {
      var e := ChosenType(t).value;
      assert KeyFromTitle(pluralize, e) == Success(cache[e]);
    }
  }

  /** Every key cached under an argument is the intended key of that argument. */
  ghost predicate ArgumentCacheConsistent(pluralize: string -> string, cache: map<TypeDesc, string>) {
    forall t :: t in cache ==> IntendedKey(pluralize, t) == Success(cache[t])
  }

  /**
   * With the cache keyed by the argument, every query gives the intended key
   * whatever was asked before, and never fails on a duplicate.
   */
  lemma ByArgumentIsHistoryIndependent(pluralize: string -> string, cache: map<TypeDesc, string>, t: TypeDesc)
    requires ArgumentCacheConsistent(pluralize, cache)
    ensures KeyForTypeByArgument(pluralize, cache, t).result == IntendedKey(pluralize, t)
    ensures ArgumentCacheConsistent(pluralize, KeyForTypeByArgument(pluralize, cache, t).cache)
  {
  }

  /**
   * With the cache keyed by the argument, querying a collection type a second
   * time hits the cache, returns the same key and pluralizes nothing.
   */
  lemma ByArgumentRepeatedQueryHits(pluralize: string -> string, cache: map<TypeDesc, string>, t: TypeDesc)
    requires KeyForTypeByArgument(pluralize, cache, t).result.Success?
    ensures var first := KeyForTypeByArgument(pluralize, cache, t);
      KeyForTypeByArgument(pluralize, first.cache, t) == KeyOutcome(first.result, first.cache, None)
  {
  }
}
