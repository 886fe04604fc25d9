/** The helper class's copy of the core-name resolver. */
module Util {
  import opened Ascii
  import Naming

  function GetterCoreName(name: string): (core: string)
    ensures core == [] <==> name == []
    ensures |core| == |name| || |core| == |name| - 2
  {
    if name == [] then name
    else if |name| > 1 && IsUpper(name[1]) && IsLower(name[0]) then name
    else if |name| > 2 && name[..2] == "is" && IsUpper(name[2]) then name[2..]
    else [ToUpper(name[0])] + name[1..]
  }

  /** The copy agrees with the processor's resolver on every input. */
  lemma AgreesWithProcessor(name: string)
    ensures GetterCoreName(name) == Naming.GetterCoreName(name)
  {
  }

  /** The copy follows the same four ordered rules. */
  lemma CoreNameRules(name: string)
    ensures name == [] ==> GetterCoreName(name) == []
    ensures Naming.KeepsName(name) ==> GetterCoreName(name) == name
    ensures !Naming.KeepsName(name) && Naming.StripsIs(name) ==> GetterCoreName(name) == name[2..]
    ensures name != [] && !Naming.KeepsName(name) && !Naming.StripsIs(name) ==>
      var core := GetterCoreName(name);
      |core| == |name| && core[0] == ToUpper(name[0]) && core[1..] == name[1..]
  {
    AgreesWithProcessor(name);
    Naming.CoreNameRules(name);
  }
}
