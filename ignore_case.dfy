/** `String.equals(other, ignoreCase = true)` as the guess check uses it,
    restricted to ASCII letters: two strings match when they have the same
    length and agree position by position once the case of a letter is
    disregarded. Characters outside 'A'..'Z' and 'a'..'z' match only
    themselves. */
module IgnoreCase {

  predicate IsUpper(c: char) { 'A' <= c <= 'Z' }

  predicate IsLower(c: char) { 'a' <= c <= 'z' }

  /** `Char.uppercaseChar()` on ASCII. */
  function UpperChar(c: char): (r: char)
    ensures IsLower(c) ==> IsUpper(r) && r as int == c as int - 32
    ensures !IsLower(c) ==> r == c
  {
    if IsLower(c) then (c as int - 32) as char else c
  }

  /** `Char.lowercaseChar()` on ASCII. */
  function LowerChar(c: char): (r: char)
    ensures IsUpper(c) ==> IsLower(r) && r as int == c as int + 32
    ensures !IsUpper(c) ==> r == c
  {
    if IsUpper(c) then (c as int + 32) as char else c
  }

  /** `Char.equals(other, ignoreCase = true)`: equal, or equal after
      upper-casing, or equal after upper- then lower-casing. */
  predicate CharEqualsIgnoreCase(a: char, b: char) {
    a == b
    || UpperChar(a) == UpperChar(b)
    || LowerChar(UpperChar(a)) == LowerChar(UpperChar(b))
  }

  /** `String.equals(other, ignoreCase = true)`. */
  predicate EqualsIgnoreCase(a: string, b: string) {
    |a| == |b| && forall i :: 0 <= i < |a| ==> CharEqualsIgnoreCase(a[i], b[i])
  }

  /** The whole string lower-cased, letter by letter. */
  function Lowered(s: string): (r: string)
    ensures |r| == |s|
    ensures forall i :: 0 <= i < |s| ==> r[i] == LowerChar(s[i])
  {
    if s == [] then [] else [LowerChar(s[0])] + Lowered(s[1..])
  }

  /** Two characters match ignoring case exactly when their lower-case
      forms are the same character. */
  lemma CharEqualsIgnoreCaseIff(a: char, b: char)
    ensures CharEqualsIgnoreCase(a, b) <==> LowerChar(a) == LowerChar(b)
  {
  }

  /** Reference definition: matching ignoring case is equality of the
      lower-cased strings, in both directions. */
  lemma EqualsIgnoreCaseIff(a: string, b: string)
    ensures EqualsIgnoreCase(a, b) <==> Lowered(a) == Lowered(b)
  {
    if EqualsIgnoreCase(a, b) {
      forall i | 0 <= i < |a|
        ensures Lowered(a)[i] == Lowered(b)[i]
      {
        CharEqualsIgnoreCaseIff(a[i], b[i]);
      }
    }
    if Lowered(a) == Lowered(b) {
      forall i | 0 <= i < |a|
        ensures CharEqualsIgnoreCase(a[i], b[i])
      {
        assert Lowered(a)[i] == Lowered(b)[i];
        CharEqualsIgnoreCaseIff(a[i], b[i]);
      }
    }
  }

  /** Matching ignoring case is an equivalence relation. */
  lemma EqualsIgnoreCaseIsEquivalence(a: string, b: string, c: string)
    ensures EqualsIgnoreCase(a, a)
    ensures EqualsIgnoreCase(a, b) ==> EqualsIgnoreCase(b, a)
    ensures EqualsIgnoreCase(a, b) && EqualsIgnoreCase(b, c) ==> EqualsIgnoreCase(a, c)
  {
    EqualsIgnoreCaseIff(a, a);
    EqualsIgnoreCaseIff(a, b);
    EqualsIgnoreCaseIff(b, a);
    EqualsIgnoreCaseIff(b, c);
    EqualsIgnoreCaseIff(a, c);
  }

  /** A guess in capitals, in lower case, or in any mix of the two matches
      the word, and a guess with a different letter does not. */
  lemma AppleExample()
    ensures EqualsIgnoreCase("APPLE", "apple")
    ensures EqualsIgnoreCase("apple", "apple")
    ensures EqualsIgnoreCase("ApPlE", "apple")
    ensures !EqualsIgnoreCase("APPLY", "apple")
    ensures !EqualsIgnoreCase("APPLES", "apple")
  {
    assert !CharEqualsIgnoreCase("APPLY"[4], "apple"[4]);
  }
}
