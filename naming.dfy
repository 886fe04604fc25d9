/**
 * Accessor-name resolution: the "core" of the getter name for a field name, to
 * which the binder prepends "get" or "is".
 */
module Naming {
  import opened Ascii

  /** The field name is kept when a lower-case letter is followed by an upper-case one. */
  predicate KeepsName(name: string) {
    |name| > 1 && IsUpper(name[1]) && IsLower(name[0])
  }

  /** An "is" prefix followed by an upper-case letter is stripped. */
  predicate StripsIs(name: string) {
    |name| > 2 && name[..2] == "is" && IsUpper(name[2])
  }

  function GetterCoreName(name: string): (core: string)
    ensures core == [] <==> name == []
    ensures |core| == |name| || |core| == |name| - 2
    ensures core != [] && IsLower(core[0]) ==> core == name
  {
    if name == [] then name
    else if KeepsName(name) then name
    else if StripsIs(name) then name[2..]
    else [ToUpper(name[0])] + name[1..]
  }

  /** The four rules, tried in order, the first that applies deciding; a reading aid that
      spells out the definition rule by rule. */
  lemma CoreNameRules(name: string)
    ensures name == [] ==> GetterCoreName(name) == []
    ensures KeepsName(name) ==> GetterCoreName(name) == name
    ensures !KeepsName(name) && StripsIs(name) ==> GetterCoreName(name) == name[2..]
    ensures name != [] && !KeepsName(name) && !StripsIs(name) ==>
      var core := GetterCoreName(name);
      |core| == |name| && core[0] == ToUpper(name[0]) && core[1..] == name[1..]
  {
  }

  /** The result is two characters shorter exactly when an "is" prefix was stripped. */
  lemma CoreNameLength(name: string)
    ensures |GetterCoreName(name)| == if !KeepsName(name) && StripsIs(name) then |name| - 2 else |name|
  {
  }

  /** A core name is its own core name: resolving twice changes nothing. */
  lemma CoreNameIdempotent(name: string)
    ensures GetterCoreName(GetterCoreName(name)) == GetterCoreName(name)
  {
    var core := GetterCoreName(name);
    if name != [] && !KeepsName(name) {
      assert !IsLower(core[0]);
      assert !KeepsName(core);
      assert core[0] != 'i';
      assert !StripsIs(core);
      assert ToUpper(core[0]) == core[0];
      assert GetterCoreName(core) == [core[0]] + core[1..] == core;
    }
  }

  /** Two different field names can share a core name, so they look for the same accessor. */
  lemma CoreNameCollision()
    ensures GetterCoreName("isBool") == GetterCoreName("bool") == "Bool"
  {
    assert StripsIs("isBool");
    assert !KeepsName("bool") && !StripsIs("bool");
  }
}
