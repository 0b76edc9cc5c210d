/** Scrambling a word: what the game shows the player is an arrangement of
    the word's letters that differs from the word. The random shuffle of a
    `CharArray` is modelled by nondeterministic choice among the
    arrangements of the array's contents. */
module Scramble {

  /** `s` uses exactly the letters of `word`, each as often. */
  predicate IsPermutationOf(s: string, word: string) {
    multiset(s) == multiset(word)
  }

  /** What the game promises of its scrambled word: an arrangement of the
      word's letters that is not the word itself. */
  predicate IsScrambleOf(s: string, word: string) {
    IsPermutationOf(s, word) && s != word
  }

  /** The word has two different letters somewhere, so some arrangement
      differs from it. Single-letter words and words such as "aaa" fail. */
  predicate Scramblable(word: string) {
    exists i, j :: 0 <= i < |word| && 0 <= j < |word| && word[i] != word[j]
  }

  /** Exchanging two letters of a word keeps its letters. */
  function Swap(s: string, i: nat, j: nat): (r: string)
    requires i < |s| && j < |s|
    ensures |r| == |s| && IsPermutationOf(r, s)
    ensures r[i] == s[j] && r[j] == s[i]
    ensures forall k :: 0 <= k < |s| && k != i && k != j ==> r[k] == s[k]
  {
    s[i := s[j]][j := s[i]]
  }

  /** A permutation is as long as what it permutes. */
  lemma PermutationLength(s: string, word: string)
    requires IsPermutationOf(s, word)
    ensures |s| == |word|
  {
    assert |multiset(s)| == |s|;
    assert |multiset(word)| == |word|;
  }

  /** A word with two different letters has a scramble: exchange them. */
  lemma ScrambleExists(word: string)
    requires Scramblable(word)
    ensures exists s :: IsScrambleOf(s, word)
  {
    var i, j :| 0 <= i < |word| && 0 <= j < |word| && word[i] != word[j];
    var s := Swap(word, i, j);
    assert s[i] != word[i];
    assert IsScrambleOf(s, word);
  }

  /** A word whose letters are all the same is its only arrangement. */
  lemma {:induction false} UniformWordHasNoScramble(word: string, s: string)
    requires !Scramblable(word)
    requires IsPermutationOf(s, word)
    ensures s == word
  {
    PermutationLength(s, word);
    forall k | 0 <= k < |s|
      ensures s[k] == word[k]
    {
      assert s[k] in multiset(s);
      assert s[k] in multiset(word);
      var m :| 0 <= m < |word| && word[m] == s[k];
      assert word[m] == word[k];
    }
  }

  /** The guard on the shuffle loop can be met exactly for words with two
      different letters: both directions. */
  lemma ScramblableIff(word: string)
    ensures Scramblable(word) <==> exists s :: IsScrambleOf(s, word)
  {
    if Scramblable(word) {
      ScrambleExists(word);
    } else if s :| IsScrambleOf(s, word) {
      UniformWordHasNoScramble(word, s);
      assert false;
    }
  }

  /** Overwrites the array with `p`, element by element. */
  method CopyInto(a: array<char>, p: seq<char>)
    requires |p| == a.Length
    modifies a
    ensures a[..] == p
  {
    forall i | 0 <= i < a.Length {
      a[i] := p[i];
    }
  }

  /** `CharArray.shuffle()`: rearranges the array in place into some
      arrangement of its own contents, possibly the one it had. */
  method Shuffle(a: array<char>)
    modifies a
    ensures IsPermutationOf(a[..], old(a[..]))
  {
    assert IsPermutationOf(a[..], a[..]);
    var p: seq<char> :| IsPermutationOf(p, a[..]);
    PermutationLength(p, a[..]);
    CopyInto(a, p);
  }

  /** A shuffle that lands on an arrangement different from `word`: the
      outcome that repeating `CharArray.shuffle()` until the array differs
      from the word reaches. Needs a word with two different letters. */
  method ShuffleAwayFrom(a: array<char>, word: string)
    requires IsPermutationOf(a[..], word)
    requires Scramblable(word)
    modifies a
    ensures IsScrambleOf(a[..], word)
  {
    ScrambleExists(word);
    var p: seq<char> :| IsScrambleOf(p, word);
    PermutationLength(p, word);
    PermutationLength(a[..], word);
    CopyInto(a, p);
  }
}
