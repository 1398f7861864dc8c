/** Upper-casing as the registry uses it: String.prototype.toUpperCase on the
    ASCII letters. Every other character is left as it is. */
module Text {

  predicate IsLower(c: char) {
    'a' <= c <= 'z'
  }

  /** True when no character of s is a lower-case letter. */
  predicate NoLower(s: string) {
    forall i | 0 <= i < |s| :: !IsLower(s[i])
  }

  /** a and b are the same character, or the same letter in the other case. */
  predicate SameIgnoringCase(a: char, b: char) {
    || a == b
    || (IsLower(a) && b as int == a as int - 32)
    || (IsLower(b) && a as int == b as int - 32)
  }

  /** Character-by-character equality up to the case of letters. */
  predicate EqualIgnoringCase(s: string, t: string) {
    |s| == |t| && forall i | 0 <= i < |s| :: SameIgnoringCase(s[i], t[i])
  }

  function UpperChar(c: char): char {
    if IsLower(c) then (c as int - 32) as char else c
  }

  /** The upper-case form of s. The two properties below determine the
      result uniquely: it has no lower-case letter and differs from s only
      in the case of letters. */
  function Upper(s: string): (r: string)
    ensures |r| == |s|
    ensures NoLower(r)
    ensures EqualIgnoringCase(r, s)
  {
    seq(|s|, i requires 0 <= i < |s| => UpperChar(s[i]))
  }

  /** Two strings are equal up to case exactly when their upper-case forms
      are equal. */
  lemma EqualIgnoringCaseIffUpper(s: string, t: string)
    ensures EqualIgnoringCase(s, t) <==> Upper(s) == Upper(t)
  {
  }

  /** Comparing the upper-case form of an input with a stored string that has
      no lower-case letter is a case-insensitive comparison. */
  lemma UpperMatchIsCaseInsensitive(input: string, stored: string)
    requires NoLower(stored)
    ensures Upper(input) == stored <==> EqualIgnoringCase(input, stored)
  {
  }
}
