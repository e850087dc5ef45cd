/** Collection detection and element-type extraction. */
module Collections {
  import opened Wrappers
  import opened Types

  /**
   * A type is serialized as a to-many value when it is an array, or when it
   * is a generic type that implements IEnumerable. A non-generic IEnumerable
   * is not.
   */
  function IsSerializedAsMany(t: TypeDesc): (many: bool)
    ensures many <==> t.isArray || (t.implementsIEnumerable && t.isGeneric)
  {
    t.isArray || (t.implementsIEnumerable && t.isGeneric)
  }

  /**
   * The first generic argument of a generic type, otherwise what
   * `Type.GetElementType` reports: the element of an array, the target of a
   * pointer or by-ref type, and null (`None`) for any other type.
   */
  function GetElementType(manyType: TypeDesc): (e: Option<TypeDesc>)
    ensures manyType.isGeneric && |manyType.genericArgs| > 0 ==> e == Some(manyType.genericArgs[0])
    ensures !manyType.isGeneric ==> e == manyType.arrayElem
  {
    if manyType.isGeneric then
      if |manyType.genericArgs| > 0 then Some(manyType.genericArgs[0]) else None
    else
      manyType.arrayElem
  }

  /** Implementing IEnumerable without being generic or an array does not make a type to-many. */
  lemma NonGenericEnumerableIsSingle(t: TypeDesc)
    requires t.implementsIEnumerable && !t.isGeneric && !t.isArray
    ensures !IsSerializedAsMany(t)
    ensures GetElementType(t).None? <==> t.arrayElem.None?
  {
  }

  /**
   * Every to-many type that the CLR can produce has an element type: the
   * array element type for an array, the first generic argument for a
   * generic enumerable.
   */
  lemma ManyTypeHasElementType(t: TypeDesc)
    requires WellFormed(t) && IsSerializedAsMany(t)
    ensures GetElementType(t).Some?
    ensures t.isArray ==> GetElementType(t) == t.arrayElem
    ensures !t.isArray ==> GetElementType(t) == Some(t.genericArgs[0])
  {
  }
}
