/** The identity resolver: the property literally named `Id`. */
module Identity {
  import opened Wrappers
  import opened Types

  const ID_NAME: string := "Id"

  /** How many of the properties carry the given name. */
  function CountNamed(props: seq<Property>, name: string): (n: nat)
    ensures n <= |props|
    ensures n == 0 <==> forall i :: 0 <= i < |props| ==> props[i].name != name
  {
    if props == [] then 0
    else (if props[0].name == name then 1 else 0) + CountNamed(props[1..], name)
  }

  /**
   * `type.GetProperty("Id")` followed by the null check: the one public
   * property named `Id`; none makes the manager throw, and more than one
   * makes reflection throw an ambiguous-match exception.
   */
  function FindIdProperty(typeName: string, props: seq<Property>): (r: Result<Property, Error>)
    ensures r.Success? <==> CountNamed(props, ID_NAME) == 1
    ensures r.Success? ==> r.value in props && r.value.name == ID_NAME
    ensures r.Success? ==> forall i :: 0 <= i < |props| && props[i].name == ID_NAME ==> props[i] == r.value
    ensures r == Failure(NoIdProperty(typeName)) <==> CountNamed(props, ID_NAME) == 0
    ensures r == Failure(AmbiguousIdProperty(typeName)) <==> CountNamed(props, ID_NAME) >= 2
  {
    if props == [] then Failure(NoIdProperty(typeName))
    else
      var rest := FindIdProperty(typeName, props[1..]);
      if props[0].name != ID_NAME then rest
      else if rest == Failure(NoIdProperty(typeName)) then Success(props[0])
      else Failure(AmbiguousIdProperty(typeName))
  }

  /** A type with exactly one property named `Id` resolves to that property. */
  lemma {:induction false} UniqueIdPropertyIsFound(typeName: string, props: seq<Property>, i: nat)
    requires i < |props| && props[i].name == ID_NAME
    requires forall j :: 0 <= j < |props| && j != i ==> props[j].name != ID_NAME
    ensures FindIdProperty(typeName, props) == Success(props[i])
  {
    if i == 0 {
      assert CountNamed(props[1..], ID_NAME) == 0;
    } else {
      UniqueIdPropertyIsFound(typeName, props[1..], i - 1);
    }
  }
}
