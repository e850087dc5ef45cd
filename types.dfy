/**
 * Type descriptors: the part of .NET reflection the metadata manager reads,
 * given as plain values (JSONAPI/Core/ModelManager.cs works on System.Type and
 * PropertyInfo).
 */
module Types {
  import opened Wrappers

  /** A member name. The CLR never gives a property an empty name. */
  type Identifier = s: string | |s| > 0 witness "Id"

  /**
   * A public property, given by its name and the type that declares it. A
   * property hidden by one of the same name in a derived type differs from
   * it in the declaring type; overloaded indexers (several public `Item`
   * properties of one type) are not told apart.
   */
  datatype Property = Property(name: Identifier, declaringType: string)

  /**
   * A type as reflection shows it: its assembly-qualified full name, which is
   * what tells two CLR types apart, its bare name, its public properties in
   * enumeration order, whether it is an array, whether it is a generic type
   * (constructed, such as `List<Person>`, or an open definition, such as
   * `List<>`), whether it implements the non-generic IEnumerable interface,
   * its generic arguments (or type parameters), the element type that
   * `Type.GetElementType` reports (the element of an array, the target of a
   * pointer or by-ref type, null otherwise), and the Title of its first
   * JsonObject attribute, if any.
   */
  datatype TypeDesc = TypeDesc(
    fullName: string,
    name: string,
    props: seq<Property>,
    isArray: bool,
    isGeneric: bool,
    implementsIEnumerable: bool,
    genericArgs: seq<TypeDesc>,
    arrayElem: Option<TypeDesc>,
    title: Option<string>)

  /**
   * What the CLR guarantees of a type: an array has an element type and is not
   * a generic type, and a generic type has at least one generic argument or
   * type parameter. A pointer or by-ref type has an element type too, without
   * being an array.
   */
  predicate WellFormed(t: TypeDesc) {
    && (t.isArray ==> t.arrayElem.Some?)
    && (t.isArray ==> !t.isGeneric)
    && (t.isGeneric ==> |t.genericArgs| > 0)
  }

  /** The exceptions a metadata query can end in. */
  datatype Error =
    | NoIdProperty(typeName: string)         // InvalidOperationException: no property named Id
    | AmbiguousIdProperty(typeName: string)  // AmbiguousMatchException from Type.GetProperty("Id")
    | NoElementType(typeName: string)        // a null element type dereferenced
    | EmptyName                              // Substring(0, 1) of the empty string
    | DuplicateKey(typeName: string)         // Dictionary.Add of a key already present
}
