// Constants shared by the test-value generator: the type modifiers a
// configuration may ask for, the roles of a variable used as a range
// endpoint, and the container type names.
module BsgGlobals {

  const Sorted: string := "sorted"
  const Lower: string := "lower"
  const Upper: string := "upper"
  const Letters: string := "letters"
  const Digits: string := "digits"
  const HexDigits: string := "hexdigits"

  /** The role of a variable that is the lower or the upper end of a range. */
  const Start: string := "start"
  const End: string := "end"

  const ContainerTypes: seq<string> := ["dict", "list", "set", "tuple"]
  const Class: string := "class"

  /** The modifiers each type accepts; a type with no entry accepts none (the defaultdict). */
  function Keywords(typeName: string): (r: seq<string>)
    ensures typeName == "tuple" || typeName == "list" ==> r == [Sorted]
    ensures typeName == "str" ==> r == [Lower, Upper, Letters, Digits, HexDigits]
    ensures typeName !in {"tuple", "list", "str"} ==> r == []
  {
    if typeName == "tuple" || typeName == "list" then [Sorted]
    else if typeName == "str" then [Lower, Upper, Letters, Digits, HexDigits]
    else []
  }

  predicate IsContainerType(typeName: string) {
    typeName in ContainerTypes
  }

  /** The four container types and nothing else. */
  lemma ContainerTypesExactly(typeName: string)
    ensures IsContainerType(typeName) <==> typeName in {"dict", "list", "set", "tuple"}
  {
  }

  /** The modifier names and the two range roles are eight distinct strings. */
  lemma MarkersDistinct()
    ensures var names := [Sorted, Lower, Upper, Letters, Digits, HexDigits, Start, End];
      forall i, j :: 0 <= i < j < |names| ==> names[i] != names[j]
  {
    assert Sorted[0] == 's' && Start[0] == 's' && Sorted[1] != Start[1];
    assert Lower[0] == 'l' && Letters[0] == 'l' && Lower[1] != Letters[1];
    assert Digits[0] == 'd' && HexDigits[0] == 'h' && Upper[0] == 'u' && End[0] == 'e';
  }

  /** Only the sequence types have a modifier that keeps their elements ordered. */
  lemma SortedOnlyForSequences(typeName: string)
    ensures Sorted in Keywords(typeName) <==> typeName == "tuple" || typeName == "list"
  {
    if typeName == "str" {
      assert Keywords(typeName) == [Lower, Upper, Letters, Digits, HexDigits];
      assert Sorted != Lower && Sorted != Upper && Sorted != Letters && Sorted != Digits && Sorted != HexDigits;
    }
  }
}
