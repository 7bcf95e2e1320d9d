/** The read-only tests of the stemmer: the consonant test with its context rule for `y`,
    Porter's measure m, the vowel test, the double-consonant test and the cvc test.
    Each reads a word `w` (the contents of the stemmer's buffer) and, where the stemmer
    reads its match boundary, the boundary `j` as an explicit argument. */
module Classifier {

  /** The five letters that are vowels wherever they occur. */
  predicate IsVowelLetter(c: char) {
    c == 'a' || c == 'e' || c == 'i' || c == 'o' || c == 'u'
  }

  /** Consonant test at position `i`: `a e i o u` are vowels, `y` is a consonant at the
      start of the word and otherwise exactly when the character before it is not one,
      and every other character is a consonant. */
  predicate IsConsonant(w: seq<char>, i: nat)
    requires i < |w|
    ensures IsConsonant(w, i) ==> !IsVowelLetter(w[i])
    ensures !IsVowelLetter(w[i]) && w[i] != 'y' ==> IsConsonant(w, i)
    ensures w[i] == 'y' && i == 0 ==> IsConsonant(w, i)
    ensures w[i] == 'y' && 0 < i && w[i - 1] != 'y' ==> (IsConsonant(w, i) <==> IsVowelLetter(w[i - 1]))
    decreases i
  {
    if IsVowelLetter(w[i]) then false
    else if w[i] == 'y' then i == 0 || !IsConsonant(w, i - 1)
    else true
  }

  /** A vowel followed directly by a consonant ends at position `i`. */
  predicate VowelConsonantAt(w: seq<char>, i: nat)
    requires 1 <= i < |w|
  {
    !IsConsonant(w, i - 1) && IsConsonant(w, i)
  }

  /** Porter's measure m of `w[0..j]`: writing the prefix as [C](VC)^m[V], the number of
      vowel runs that are followed by a consonant run, that is the number of positions
      `1 <= i <= j` where a consonant directly follows a vowel. */
  function Measure(w: seq<char>, j: int): (m: nat)
    requires j < |w|
    ensures j < 0 ==> m == 0
    ensures j >= 0 ==> m <= (j + 1) / 2
    ensures j >= 0 && !IsConsonant(w, j) ==> m <= j / 2
    decreases j
  {
    if j < 1 then 0
    else Measure(w, j - 1) + (if VowelConsonantAt(w, j) then 1 else 0)
  }

  /** Some position of `w[0..j]` holds a vowel. */
  predicate HasVowel(w: seq<char>, j: int)
    requires j < |w|
    ensures HasVowel(w, j) ==> 0 <= j
  {
    exists i: int :: 0 <= i <= j && !IsConsonant(w, i)
  }

  /** Position `i` holds one of `a e i o u`, or a `y` that is not the first letter. */
  predicate VowelLetterOrLaterY(w: seq<char>, i: nat)
    requires i < |w|
  {
    IsVowelLetter(w[i]) || (0 < i && w[i] == 'y')
  }

  /** `w[0..j]` holds a vowel exactly when it holds one of `a e i o u` or a `y` after its first
      letter: such a `y` is a vowel unless the letter before it is one. */
  lemma HasVowelByLetters(w: seq<char>, j: int)
    requires j < |w|
    ensures HasVowel(w, j) <==> exists i: int :: 0 <= i <= j && VowelLetterOrLaterY(w, i)
  {
    if exists i: int :: 0 <= i <= j && VowelLetterOrLaterY(w, i) {
      var i :| 0 <= i <= j && VowelLetterOrLaterY(w, i);
      var h := if IsConsonant(w, i) then i - 1 else i;
      assert 0 <= h <= j && !IsConsonant(w, h);
    } else {
      forall i | 0 <= i <= j
        ensures IsConsonant(w, i)
      {
        assert !VowelLetterOrLaterY(w, i);
      }
    }
  }

  /** Positions `i - 1` and `i` hold the same character and position `i` is a consonant. */
  predicate DoubleConsonant(w: seq<char>, i: int)
    requires i < |w|
    ensures DoubleConsonant(w, i) ==> 1 <= i && !IsVowelLetter(w[i - 1]) && !IsVowelLetter(w[i])
    ensures BoxedDoubleConsonant(w, i) ==> DoubleConsonant(w, i)
    ensures 0 <= i && w[i] as int < 0x80 ==> (DoubleConsonant(w, i) <==> BoxedDoubleConsonant(w, i))
  {
    1 <= i && w[i] == w[i - 1] && IsConsonant(w, i)
  }

  /** Whether two entries of the buffer that hold `a` and `b` are the same `Character`
      object. Every entry is boxed afresh when it is added or written, and boxing shares one
      object per value only for the values `\u0000` to `\u007f`. */
  predicate SameBox(a: char, b: char) {
    a == b && a as int < 0x80
  }

  /** The double-consonant test as the code writes it: the two entries are compared as
      objects, so equal characters above `\u007f` never count as a pair. */
  predicate BoxedDoubleConsonant(w: seq<char>, i: int)
    requires i < |w|
    ensures BoxedDoubleConsonant(w, i) ==> 1 <= i && w[i] as int < 0x80
  {
    1 <= i && SameBox(w[i], w[i - 1]) && IsConsonant(w, i)
  }

  /** Positions `i - 2, i - 1, i` are consonant, vowel, consonant, and the last one is not
      `w`, `x` or `y`. */
  predicate Cvc(w: seq<char>, i: int)
    requires i < |w|
    ensures Cvc(w, i) ==> 2 <= i && !IsVowelLetter(w[i - 2])
    ensures Cvc(w, i) ==> IsVowelLetter(w[i - 1]) || w[i - 1] == 'y'
    ensures Cvc(w, i) ==> !IsVowelLetter(w[i]) && w[i] != 'w' && w[i] != 'x' && w[i] != 'y'
  {
    2 <= i && IsConsonant(w, i) && !IsConsonant(w, i - 1) && IsConsonant(w, i - 2)
    && w[i] != 'w' && w[i] != 'x' && w[i] != 'y'
  }

  /** Length of the run of `y`s that ends at position `i`. */
  function YRun(w: seq<char>, i: nat): (p: nat)
    requires i < |w| && w[i] == 'y'
    ensures 1 <= p <= i + 1
    ensures forall t :: i - p < t <= i ==> w[t] == 'y'
    ensures i - p >= 0 ==> w[i - p] != 'y'
    decreases i
  {
    if i > 0 && w[i - 1] == 'y' then YRun(w, i - 1) + 1 else 1
  }

  /** A closed form of the context rule for `y`: in a run of `p` `y`s ending at `i`, the
      classification alternates along the run, starting with consonant when the run begins
      the word or follows one of `a e i o u`, and starting with vowel when it follows any
      other letter. So `y` at `i` is a consonant exactly when `p` is odd in the first case
      and even in the second. */
  lemma {:induction false} YByRunParity(w: seq<char>, i: nat)
    requires i < |w| && w[i] == 'y'
    ensures var p := YRun(w, i);
      IsConsonant(w, i) <==>
        (if i - p < 0 || IsVowelLetter(w[i - p]) then p % 2 == 1 else p % 2 == 0)
    decreases i
  {
    if i > 0 && w[i - 1] == 'y' {
      YByRunParity(w, i - 1);
    }
  }

  /** Porter's m never decreases as the prefix grows. */
  lemma {:induction false} MeasureMonotone(w: seq<char>, i: int, j: int)
    requires i <= j < |w|
    ensures Measure(w, i) <= Measure(w, j)
    decreases j - i
  {
    if i < j {
      MeasureMonotone(w, i, j - 1);
    }
  }

  /** A prefix with m > 0 contains a vowel. */
  lemma {:induction false} MeasureNeedsVowel(w: seq<char>, j: int)
    requires j < |w| && Measure(w, j) > 0
    ensures HasVowel(w, j)
    decreases j
  {
    if VowelConsonantAt(w, j) {
      assert !IsConsonant(w, j - 1);
    } else {
      MeasureNeedsVowel(w, j - 1);
    }
  }

  /** A cvc ending at `i` ends a VC pair, so the prefix up to `i` has m >= 1. */
  lemma CvcHasMeasure(w: seq<char>, i: int)
    requires i < |w| && Cvc(w, i)
    ensures Measure(w, i) >= 1
  {
    assert VowelConsonantAt(w, i);
  }

  /** The double-consonant test looks at the last of the two letters only. For a letter other
      than `y` both are then consonants; for `yy` the first `y` is a vowel, since a `y` is a
      consonant exactly when it follows a vowel. */
  lemma DoubleConsonantBoth(w: seq<char>, i: int)
    requires i < |w| && DoubleConsonant(w, i)
    ensures w[i] != 'y' ==> IsConsonant(w, i - 1) && !IsVowelLetter(w[i])
    ensures w[i] == 'y' ==> !IsConsonant(w, i - 1)
  {
  }
}
