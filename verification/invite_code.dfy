/** Shaping of invite codes: the text rendering of a random number, characters
    2 to 8, upper-cased. The random number itself is an input. */
module InviteCode {
  import opened Text

  function Min(a: int, b: int): int {
    if a <= b then a else b
  }

  function Max(a: int, b: int): int {
    if a <= b then b else a
  }

  /** String.prototype.substring for non-negative arguments: both ends are
      clamped to the length of s, and swapped when start exceeds end. */
  function Substring(s: string, start: nat, end: nat): (r: string)
    ensures var lo := Min(Min(start, end), |s|);
      var hi := Min(Max(start, end), |s|);
      && |r| == hi - lo
      && forall k | 0 <= k < |r| :: r[k] == s[lo + k]
  {
    var a := Min(start, |s|);
    var b := Min(end, |s|);
    if a <= b then s[a..b] else s[b..a]
  }

  /** The order of the two ends does not matter. */
  lemma SubstringSwap(s: string, start: nat, end: nat)
    ensures Substring(s, start, end) == Substring(s, end, start)
  {
  }

  const CodeStart: nat := 2
  const CodeEnd: nat := 8

  /** The invite code made from the rendering of a random number: at most six
      characters, none of them lower-case, each the upper-case form of the
      rendering's character two places further on. */
  function Generate(rendering: string): (code: string)
    ensures |code| == if |rendering| <= CodeStart then 0 else Min(|rendering|, CodeEnd) - CodeStart
    ensures |code| <= CodeEnd - CodeStart
    ensures NoLower(code)
    ensures forall k | 0 <= k < |code| :: SameIgnoringCase(code[k], rendering[k + CodeStart])
  {
    Upper(Substring(rendering, CodeStart, CodeEnd))
  }

  predicate IsBase36Digit(c: char) {
    '0' <= c <= '9' || 'a' <= c <= 'z'
  }

  predicate IsCodeChar(c: char) {
    '0' <= c <= '9' || 'A' <= c <= 'Z'
  }

  /** The shape Number.prototype.toString(36) gives a number in [0, 1):
      "0", or "0." followed by base-36 digits. */
  predicate IsUnitBase36(s: string) {
    || s == "0"
    || (&& |s| >= 3 && s[0] == '0' && s[1] == '.'
        && forall i | 2 <= i < |s| :: IsBase36Digit(s[i]))
  }

  /** Codes made from a random number are drawn from digits and upper-case
      letters, and have exactly six characters when the rendering has at
      least six fractional digits. */
  lemma GenerateAlphabet(rendering: string)
    requires IsUnitBase36(rendering)
    ensures forall k | 0 <= k < |Generate(rendering)| :: IsCodeChar(Generate(rendering)[k])
    ensures |rendering| >= CodeEnd ==> |Generate(rendering)| == CodeEnd - CodeStart
  {
  }

  /** Shorter renderings give shorter codes: 0.5 renders as "0.i" and gives a
      one-character code, and 0 renders as "0" and gives the empty code. */
  lemma ShortCodes()
    ensures Generate("0.i") == "I"
    ensures Generate("0") == ""
  {
  }
}
