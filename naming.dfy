/** The name formatter: the wire key of a property is its name with the first letter decapitalised. */
module Naming {
  import opened Types

  predicate IsUpperAscii(c: char) {
    'A' <= c <= 'Z'
  }

  /** Lower-casing of one character, restricted to ASCII letters. */
  function LowerChar(c: char): (l: char)
    ensures !IsUpperAscii(l)
    ensures IsUpperAscii(c) ==> l as int == c as int + 32
    ensures !IsUpperAscii(c) ==> l == c
  {
    if IsUpperAscii(c) then (c as int + 32) as char else c
  }

  /**
   * `Substring(0, 1).ToLower() + Substring(1)`: the first character is
   * lower-cased and every other character is kept. The empty string makes
   * `Substring(0, 1)` throw, so callers must pass a non-empty name.
   */
  function FormatPropertyName(propertyName: string): (r: string)
    requires |propertyName| > 0
    ensures |r| == |propertyName|
    ensures r[0] == LowerChar(propertyName[0]) && !IsUpperAscii(r[0])
    ensures forall i :: 1 <= i < |r| ==> r[i] == propertyName[i]
  {
    [LowerChar(propertyName[0])] + propertyName[1..]
  }

  /** The wire key of a property: its formatted name, which is never empty. */
  function GetJsonKeyForProperty(prop: Property): (key: Identifier)
    ensures |key| == |prop.name|
    ensures key[0] == LowerChar(prop.name[0])
    ensures key[1..] == prop.name[1..]
  {
    FormatPropertyName(prop.name)
  }

  /** Formatting a wire key again changes nothing. */
  lemma FormatPropertyNameIdempotent(name: string)
    requires |name| > 0
    ensures FormatPropertyName(FormatPropertyName(name)) == FormatPropertyName(name)
  {
  }

  /** A name is its own wire key exactly when it does not start with an upper-case letter. */
  lemma FormatPropertyNameFixedPoint(name: string)
    requires |name| > 0
    ensures FormatPropertyName(name) == name <==> !IsUpperAscii(name[0])
  {
  }

  /**
   * Two names format to the same wire key exactly when they have the same
   * length, agree from the second character on, and their first characters
   * lower-case to the same character (`Name` and `name` collide).
   */
  lemma FormatPropertyNameCollision(a: string, b: string)
    requires |a| > 0 && |b| > 0
    ensures FormatPropertyName(a) == FormatPropertyName(b)
        <==> |a| == |b| && a[1..] == b[1..] && LowerChar(a[0]) == LowerChar(b[0])
  {
  }
}
