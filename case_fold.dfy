/** The part of Python's `str.lower()` that decides whether a city name is
    supported: ASCII capitals map to small letters, and KELVIN SIGN (U+212A),
    whose Unicode lowercase mapping is the ASCII letter 'k', maps to 'k'.
    Every other character is left as it is. */
module CaseFold {

  const KELVIN_SIGN: char := '\U{212A}'

  predicate IsAsciiUpper(c: char) {
    'A' <= c <= 'Z'
  }

  predicate IsAsciiLower(c: char) {
    'a' <= c <= 'z'
  }

  function LowerChar(c: char): char {
    if IsAsciiUpper(c) then (c as int + 32) as char
    else if c == KELVIN_SIGN then 'k'
    else c
  }

  function Lower(s: string): (r: string)
    ensures |r| == |s|
    ensures forall i :: 0 <= i < |s| ==> r[i] == LowerChar(s[i])
  {
    if s == [] then [] else Lower(s[..|s| - 1]) + [LowerChar(s[|s| - 1])]
  }

  /** A key the comparison can match: ASCII, and already in lower case. */
  predicate IsLowerAsciiKey(key: string) {
    forall i :: 0 <= i < |key| ==> key[i] as int < 128 && !IsAsciiUpper(key[i])
  }

  /** An independent description of "c lower-cases to t", for an ASCII
      character t that is not a capital: c is t itself, the capital of t,
      or the Kelvin sign standing for 'k'. */
  predicate SpellsAs(c: char, t: char) {
    || c == t
    || (IsAsciiLower(t) && c as int == t as int - 32)
    || (t == 'k' && c == KELVIN_SIGN)
  }

  predicate EqualsIgnoringCase(s: string, key: string) {
    |s| == |key| && forall i :: 0 <= i < |s| ==> SpellsAs(s[i], key[i])
  }

  /** Comparing `Lower(s)` with a lower-case ASCII key is exactly a
      character-by-character, case-insensitive comparison. */
  lemma LowerEqualsIff(s: string, key: string)
    requires IsLowerAsciiKey(key)
    ensures Lower(s) == key <==> EqualsIgnoringCase(s, key)
  {
  }
}
