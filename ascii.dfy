/** Letter case on the ASCII range; every other character has no case. */
module Ascii {

  predicate IsUpper(c: char) {
    'A' <= c <= 'Z'
  }

  predicate IsLower(c: char) {
    'a' <= c <= 'z'
  }

  function ToUpper(c: char): (u: char)
    ensures IsLower(c) ==> IsUpper(u) && u as int == c as int - 32
    ensures !IsLower(c) ==> u == c
    ensures !IsLower(u)
  {
    if IsLower(c) then (c as int - 32) as char else c
  }
}
