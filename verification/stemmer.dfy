/** The stemmer object: a character buffer filled by `add`, the cursors `k` and `j` that the
    steps move, and the result length `endIndex`. Every method changes the fields the way the
    corresponding function of the Rules module describes, so the whole of `stem()` computes
    Rules.Stem of the buffer. */
module Engine {
  import opened Classifier
  import Rules
  import RuleProperties

  class Stemmer {
    /** The characters added so far; `stem()` rewrites a prefix of them and then discards them. */
    var wordBuffer: seq<char>
    /** The length of the last stem, set by `stem()`. */
    var endIndex: int
    /** The match boundary: the index just before the suffix matched by the last successful
        suffix test (or the end of the stem a rule measures). */
    var j: int
    /** The index of the last character of the active word. */
    var k: int
    /** The stem as `buf[0..endIndex)` held it just before `stem()` discarded the buffer. */
    ghost var lastStem: seq<char>

    /** The part of the object the steps work on. */
    function Snapshot(): Rules.State
      reads this
    {
      Rules.State(wordBuffer, k, j)
    }

    constructor ()
      ensures wordBuffer == [] && endIndex == 0 && j == 0 && k == 0
    {
      wordBuffer := [];
      endIndex, j, k := 0, 0, 0;
      lastStem := [];
    }

    /** `add(char)`: appends one character to the word being built. */
    method Add(ch: char)
      modifies this`wordBuffer
      ensures wordBuffer == old(wordBuffer) + [ch]
    {
      wordBuffer := wordBuffer + [ch];
    }

    /** `add(char[], int)`: appends the first `wordLen` characters of `word`; a negative
        length appends nothing, and a length past the end of `word` is out of bounds. */
    method AddPortion(word: array<char>, wordLen: int)
      requires wordLen <= word.Length
      modifies this`wordBuffer
      ensures wordBuffer == old(wordBuffer) + word[..if wordLen < 0 then 0 else wordLen]
    {
      var i := 0;
      while i < wordLen
        invariant 0 <= i && (i <= wordLen || i == 0)
        invariant wordBuffer == old(wordBuffer) + word[..i]
      {
        wordBuffer := wordBuffer + [word[i]];
        i := i + 1;
      }
    }

    /** `toString()`: the first `endIndex` characters of the buffer. These must still exist,
        which after `stem()` they do only for an empty stem. */
    method ToString() returns (s: string)
      requires endIndex <= |wordBuffer|
      ensures s == wordBuffer[..if endIndex < 0 then 0 else endIndex]
    {
      s := [];
      var i := 0;
      while i < endIndex
        invariant 0 <= i && (i <= endIndex || i == 0)
        invariant s == wordBuffer[..i]
      {
        s := s + [wordBuffer[i]];
        i := i + 1;
      }
    }

    /** `getResultLength()`: the length of the last stem. */
    method GetResultLength() returns (n: int)
      ensures n == endIndex
    {
      n := endIndex;
    }

    /** `getResultBuffer()`: a new array holding the first `endIndex` characters of the
        buffer; the array size must not be negative and the characters must still exist. */
    method GetResultBuffer() returns (buffer: array<char>)
      requires 0 <= endIndex <= |wordBuffer|
      ensures fresh(buffer) && buffer[..] == wordBuffer[..endIndex]
    {
      buffer := new char[endIndex];
      var i := 0;
      while i < endIndex
        invariant 0 <= i <= endIndex
        invariant buffer[..i] == wordBuffer[..i]
        modifies buffer
      {
        buffer[i] := wordBuffer[i];
        i := i + 1;
      }
    }

    /** `measureConsonantSequences()`: Porter's m of `wordBuffer[0..j]`, computed by skipping
        the leading consonants and then counting each vowel run that a consonant run follows. */
    method MeasureConsonantSequences() returns (n: nat)
      requires j < |wordBuffer|
      ensures n == Measure(wordBuffer, j)
    {
      n := 0;
      var i := 0;
      while true
        invariant 0 <= i && (i <= j + 1 || i == 0)
        invariant i == 0 || IsConsonant(wordBuffer, i - 1)
        invariant Measure(wordBuffer, i - 1) == 0
        decreases j + 1 - i
      {
        if i > j { return n; }
        if !IsConsonant(wordBuffer, i) { break; }
        i := i + 1;
      }
      i := i + 1;
      while true
        invariant 1 <= i <= j + 1
        invariant !IsConsonant(wordBuffer, i - 1)
        invariant n == Measure(wordBuffer, i - 1)
        decreases j + 1 - i
      {
        while true
          invariant 1 <= i <= j + 1
          invariant !IsConsonant(wordBuffer, i - 1)
          invariant n == Measure(wordBuffer, i - 1)
          decreases j + 1 - i
        {
          if i > j { return n; }
          if IsConsonant(wordBuffer, i) { break; }
          i := i + 1;
        }
        i := i + 1;
        n := n + 1;
        while true
          invariant 1 <= i <= j + 1
          invariant IsConsonant(wordBuffer, i - 1)
          invariant n == Measure(wordBuffer, i - 1)
          decreases j + 1 - i
        {
          if i > j { return n; }
          if !IsConsonant(wordBuffer, i) { break; }
          i := i + 1;
        }
        i := i + 1;
      }
    }

    /** `containsVowel()`: some position of `wordBuffer[0..j]` is a vowel. */
    method ContainsVowel() returns (b: bool)
      requires j < |wordBuffer|
      ensures b == HasVowel(wordBuffer, j)
    {
      var i := 0;
      while i <= j
        invariant 0 <= i && (i <= j + 1 || i == 0)
        invariant forall t :: 0 <= t < i ==> IsConsonant(wordBuffer, t)
      {
        if !IsConsonant(wordBuffer, i) { return true; }
        i := i + 1;
      }
      return false;
    }

    /** `endsWith(s)`: compares `s` with the end of the active word character by character;
        on success `j` moves to the index just before the suffix. */
    method EndsWith(s: string) returns (b: bool)
      requires k < |wordBuffer|
      modifies this`j
      ensures b == Rules.Ends(old(Snapshot()), s)
      ensures Snapshot() == Rules.Match(old(Snapshot()), s)
    {
      var length := |s|;
      var offset := k - length + 1;
      if offset < 0 { return false; }
      var i := 0;
      while i < length
        invariant 0 <= i <= length
        invariant forall t :: 0 <= t < i ==> wordBuffer[offset + t] == s[t]
      {
        if wordBuffer[offset + i] != s[i] {
          assert wordBuffer[offset..k + 1][i] != s[i];
          return false;
        }
        i := i + 1;
      }
      assert wordBuffer[offset..k + 1] == s;
      j := k - length;
      return true;
    }

    /** `setTo(s)`: writes `s` over positions `j + 1 .. j + |s|` one character at a time and
        moves `k` to the last of them. */
    method SetTo(s: string)
      requires -1 <= j && j + |s| < |wordBuffer|
      modifies this`wordBuffer, this`k
      ensures Snapshot() == Rules.SetTo(old(Snapshot()), s)
    {
      ghost var r := Rules.SetTo(Snapshot(), s);
      var offset := j + 1;
      var i := 0;
      while i < |s|
        invariant 0 <= i <= |s| && |wordBuffer| == |old(wordBuffer)|
        invariant forall t :: 0 <= t < |wordBuffer| ==>
          wordBuffer[t] == if offset <= t < offset + i then s[t - offset] else old(wordBuffer)[t]
      {
        wordBuffer := wordBuffer[offset + i := s[i]];
        i := i + 1;
      }
      assert forall t :: 0 <= t < |wordBuffer| ==> wordBuffer[t] == r.buf[t];
      k := j + |s|;
    }

    /** `repIfMeasureGreaterZero(s)`: `setTo(s)` when m of `wordBuffer[0..j]` is positive. */
    method RepIfMeasureGreaterZero(s: string)
      requires -1 <= j && j + |s| < |wordBuffer|
      modifies this`wordBuffer, this`k
      ensures Snapshot() == Rules.RepIfMeasure(old(Snapshot()), s)
    {
      var m := MeasureConsonantSequences();
      if m > 0 { SetTo(s); }
    }

    /** One `if (endsWith(suffix)) { repIfMeasureGreaterZero(rep); break; }` line of steps 3
        and 4: reports whether the suffix matched. */
    method ReplaceSuffix(suffix: string, rep: string) returns (matched: bool)
      requires -1 <= k < |wordBuffer| && 0 < |suffix| && |rep| <= |suffix|
      modifies this`wordBuffer, this`k, this`j
      ensures matched == Rules.Ends(old(Snapshot()), suffix)
      ensures matched ==> Snapshot() == Rules.Rule(old(Snapshot()), suffix, rep, old(Snapshot()))
      ensures !matched ==> Snapshot() == old(Snapshot())
    {
      matched := EndsWith(suffix);
      if matched { RepIfMeasureGreaterZero(rep); }
    }

    /** Step 1, `removePluralsAndEdOrIng()`. */
    method RemovePluralsAndEdOrIng()
      requires 2 <= k < |wordBuffer|
      modifies this`wordBuffer, this`k, this`j
      ensures Snapshot() == Rules.Step1(old(Snapshot()))
    {
      RemovePlurals();
      RemoveEdOrIng();
    }

    /** The plural half of step 1 (Porter's step 1a). */
    method RemovePlurals()
      requires 2 <= k < |wordBuffer|
      modifies this`wordBuffer, this`k, this`j
      ensures Snapshot() == Rules.Step1a(old(Snapshot()))
    {
      if wordBuffer[k] == 's' {
        var b := EndsWith("sses");
        if b {
          k := k - 2;
        } else {
          b := EndsWith("ies");
          if b {
            SetTo("i");
          } else if wordBuffer[k - 1] != 's' {
            k := k - 1;
          }
        }
      }
    }

    /** The `-eed`, `-ed`, `-ing` half of step 1 (Porter's step 1b). */
    method RemoveEdOrIng()
      requires 0 <= k < |wordBuffer|
      modifies this`wordBuffer, this`k, this`j
      ensures Snapshot() == Rules.Step1b(old(Snapshot()))
    {
      var b := EndsWith("eed");
      if b {
        var m := MeasureConsonantSequences();
        if m > 0 { k := k - 1; }
      } else {
        b := EndsWith("ed");
        if !b { b := EndsWith("ing"); }
        if b { b := ContainsVowel(); }
        if b {
          k := j;
          TidyStem();
        }
      }
    }

    /** The tidying of step 1 after `ed` or `ing` was removed. */
    method TidyStem()
      requires 0 <= k && k + 2 < |wordBuffer| && j == k
      modifies this`wordBuffer, this`k, this`j
      ensures Snapshot() == Rules.Step1bTidy(old(Snapshot()))
    {
      var b := EndsWith("at");
      if b { SetTo("ate"); return; }
      b := EndsWith("bl");
      if b { SetTo("ble"); return; }
      b := EndsWith("iz");
      if b { SetTo("ize"); return; }
      if DoubleConsonant(wordBuffer, k) {
        k := k - 1;
        var ch := wordBuffer[k];
        if ch == 'l' || ch == 's' || ch == 'z' { k := k + 1; }
      } else {
        var m := MeasureConsonantSequences();
        if m == 1 && Cvc(wordBuffer, k) { SetTo("e"); }
      }
    }

    /** Step 2, `transformTerminalYToI()`. */
    method TransformTerminalYToI()
      requires -1 <= k < |wordBuffer|
      modifies this`wordBuffer, this`j
      ensures Snapshot() == Rules.Step2(old(Snapshot()))
    {
      var b := EndsWith("y");
      if b {
        b := ContainsVowel();
        if b { wordBuffer := wordBuffer[k := 'i']; }
      }
    }

    /** One arm of the switch of step 3 or step 4: the tests `endsWith(suffix)` of the arm's
        entries, in order from `from`, until one succeeds; that entry's replacement is then
        made when m > 0. */
    method ReplaceFirst(rules: seq<Rules.Rewrite>, from: nat)
      requires -1 <= k < |wordBuffer| && Rules.Shortening(rules)
      modifies this`wordBuffer, this`k, this`j
      ensures Snapshot() == Rules.FirstRule(old(Snapshot()), rules, from)
      decreases |rules| - from
    {
      if from < |rules| {
        var matched := ReplaceSuffix(rules[from].suffix, rules[from].rep);
        if !matched {
          ReplaceFirst(rules, from + 1);
        }
      }
    }

    /** Step 3, `mapDoubleSuffixesToSingle()`: the arm chosen by the last but one character. */
    method MapDoubleSuffixesToSingle()
      requires 0 <= k < |wordBuffer|
      modifies this`wordBuffer, this`k, this`j
      ensures Snapshot() == Rules.Step3(old(Snapshot()))
    {
      if k == 0 { return; }
      ghost var st := Snapshot();
      var rules := Rules.Step3Rules(wordBuffer[k - 1]);
      assert Rules.Step3(st) == Rules.FirstRule(st, rules, 0);
      ReplaceFirst(rules, 0);
    }

    /** Step 4, `handleSuffixes()`: the arm chosen by the last character. */
    method HandleSuffixes()
      requires 0 <= k < |wordBuffer|
      modifies this`wordBuffer, this`k, this`j
      ensures Snapshot() == Rules.Step4(old(Snapshot()))
    {
      ghost var st := Snapshot();
      var rules := Rules.Step4Rules(wordBuffer[k]);
      assert Rules.Step4(st) == Rules.FirstRule(st, rules, 0);
      ReplaceFirst(rules, 0);
    }

    /** Step 5, `removeSuffixesInContext()`: find the suffix of the bucket, then remove it
        when m > 1. */
    method RemoveSuffixesInContext()
      requires 0 <= k < |wordBuffer|
      modifies this`k, this`j
      ensures Snapshot() == Rules.Step5(old(Snapshot()))
    {
      if k == 0 { return; }
      var found := FindContextSuffix();
      if found {
        var m := MeasureConsonantSequences();
        if m > 1 { k := j; }
      }
    }

    /** The suffix tests of step 5, which only move `j`. */
    method FindContextSuffix() returns (found: bool)
      requires 1 <= k < |wordBuffer|
      modifies this`j
      ensures Rules.ContextSuffix(old(Snapshot())) == Rules.Found(found, Snapshot())
    {
      found := false;
      ghost var st := Snapshot();
      match wordBuffer[k - 1] {
      case 'a' =>
        RuleProperties.FindFirstOne(st, "al");
        found := EndsWith("al");
      case 'c' =>
        RuleProperties.FindFirstTwo(st, "ance", "ence");
        found := EndsWith("ance");
        if !found { found := EndsWith("ence"); }
      case 'e' =>
        RuleProperties.FindFirstOne(st, "er");
        found := EndsWith("er");
      case 'i' =>
        RuleProperties.FindFirstOne(st, "ic");
        found := EndsWith("ic");
      case 'l' =>
        RuleProperties.FindFirstTwo(st, "able", "ible");
        found := EndsWith("able");
        if !found { found := EndsWith("ible"); }
      case 'n' =>
        RuleProperties.FindFirstFour(st, "ant", "ement", "ment", "ent");
        found := EndsWith("ant");
        if !found { found := EndsWith("ement"); }
        if !found { found := EndsWith("ment"); }
        if !found { found := EndsWith("ent"); }
      case 'o' => found := FindIonOrOu();
      case 's' =>
        RuleProperties.FindFirstOne(st, "ism");
        found := EndsWith("ism");
      case 't' =>
        RuleProperties.FindFirstTwo(st, "ate", "iti");
        found := EndsWith("ate");
        if !found { found := EndsWith("iti"); }
      case 'u' =>
        RuleProperties.FindFirstOne(st, "ous");
        found := EndsWith("ous");
      case 'v' =>
        RuleProperties.FindFirstOne(st, "ive");
        found := EndsWith("ive");
      case 'z' =>
        RuleProperties.FindFirstOne(st, "ize");
        found := EndsWith("ize");
      case _ =>
      }
    }

    /** The `o` line of the step 5 tests: `ion` after `s` or `t`, else `ou`. */
    method FindIonOrOu() returns (found: bool)
      requires 1 <= k < |wordBuffer|
      modifies this`j
      ensures Rules.IonOrOu(old(Snapshot())) == Rules.Found(found, Snapshot())
    {
      found := EndsWith("ion");
      if !(found && j >= 0 && (wordBuffer[j] == 's' || wordBuffer[j] == 't')) {
        found := EndsWith("ou");
      }
    }

    /** Step 6, `removeFinalE()`. */
    method RemoveFinalE()
      requires 0 <= k < |wordBuffer|
      modifies this`k, this`j
      ensures Snapshot() == Rules.Step6(old(Snapshot()))
    {
      j := k;
      if wordBuffer[k] == 'e' {
        var a := MeasureConsonantSequences();
        if a > 1 || (a == 1 && !Cvc(wordBuffer, k - 1)) { k := k - 1; }
      }
      if wordBuffer[k] == 'l' && DoubleConsonant(wordBuffer, k) {
        var m := MeasureConsonantSequences();
        if m > 1 { k := k - 1; }
      }
    }

    /** Step 7, `handleVerbSuffixes()`. */
    method HandleVerbSuffixes()
      requires -1 <= k < |wordBuffer|
      modifies this`wordBuffer, this`k, this`j
      ensures Snapshot() == Rules.Step7(old(Snapshot()))
    {
      var b := EndsWith("ing");
      if b { b := ContainsVowel(); }
      if b { SetTo("e"); return; }
      b := EndsWith("ed");
      if b { b := ContainsVowel(); }
      if b { SetTo(""); return; }
      HandleLaterVerbSuffixes();
    }

    /** The tests of step 7 after `ing` and `ed`: `es` and `s`. */
    method HandleLaterVerbSuffixes()
      requires -1 <= k < |wordBuffer|
      modifies this`wordBuffer, this`k, this`j
      ensures Snapshot() == Rules.Step7Rest(old(Snapshot()))
    {
      var b := EndsWith("es");
      if b {
        var m := MeasureConsonantSequences();
        if m > 0 { SetTo("e"); return; }
      }
      b := EndsWith("s");
      if b {
        var m := MeasureConsonantSequences();
        if m > 1 { SetTo(""); return; }
      }
      HandleLastVerbSuffixes();
    }

    /** The last tests of step 7, after `es` and `s`. */
    method HandleLastVerbSuffixes()
      requires -1 <= k < |wordBuffer|
      modifies this`wordBuffer, this`k, this`j
      ensures Snapshot() == Rules.Step7Last(old(Snapshot()))
    {
      var b := ReplaceSuffix("ational", "ate");
      if b { return; }
      b := ReplaceSuffix("tional", "tion");
      if b { return; }
      b := EndsWith("ing");
      if b { SetTo(""); }
    }

    /** The body of `stem()` for a word of more than two characters: the seven steps in
        order. */
    method RunSteps()
      requires 2 <= k < |wordBuffer|
      modifies this`wordBuffer, this`k, this`j
      ensures Snapshot() == Rules.Steps(old(Snapshot()))
    {
      RemovePluralsAndEdOrIng();
      TransformTerminalYToI();
      MapDoubleSuffixesToSingle();
      HandleSuffixes();
      RemoveSuffixesInContext();
      RemoveFinalE();
      HandleVerbSuffixes();
    }

    /** The rewriting part of `stem()`: `k` starts at the last character, the seven steps
        run on a word of more than two characters, and `endIndex` records the stem length.
        The stem is then the front `buf[0..endIndex)` of the buffer, which keeps its length,
        so `toString()` and `getResultBuffer()` can read it. This is `stem()` without its last
        line, and so `stem()` as its accessors need it (see `BeginWord`). */
    method StemInPlace()
      modifies this`wordBuffer, this`k, this`j, this`endIndex
      ensures |wordBuffer| == |old(wordBuffer)| && 0 <= endIndex == k + 1 <= |wordBuffer|
      ensures wordBuffer[..endIndex] == Rules.Stem(old(wordBuffer))
      ensures |old(wordBuffer)| <= 2 ==> endIndex == |old(wordBuffer)|
    {
      ghost var w, j0 := wordBuffer, j;
      k := |wordBuffer| - 1;
      if k > 1 {
        RunSteps();
        RuleProperties.StemIsStepsPrefix(w, j0, Snapshot());
      } else {
        assert wordBuffer[..k + 1] == w;
      }
      endIndex := k + 1;
    }

    /** The clearing of the buffer that `stem()` does as its last line, done instead when the
        next word begins, so that the previous stem stays readable until then. */
    method BeginWord()
      modifies this`wordBuffer
      ensures wordBuffer == []
    {
      wordBuffer := [];
    }

    /** `stem()`: stems the word in place, then replaces the buffer by an empty one. The stem
        survives only in the ghost `lastStem`; `endIndex` still counts its characters, so the
        accessors that read the buffer cannot be called afterwards unless the stem is empty. */
    method Stem()
      modifies this
      ensures lastStem == Rules.Stem(old(wordBuffer))
      ensures endIndex == |lastStem| && endIndex == k + 1 && endIndex <= |old(wordBuffer)|
      ensures |old(wordBuffer)| <= 2 ==> endIndex == |old(wordBuffer)|
      ensures wordBuffer == []
    {
      ghost var w := wordBuffer;
      StemInPlace();
      ghost var stem := wordBuffer[..endIndex];
      assert stem == Rules.Stem(w) && |stem| == endIndex;
      lastStem := stem;
      wordBuffer := [];
    }
  }

  /** The driver's sequence of calls (add the letters, `stem()`, then `toString()`) on the
      word `is`: after `stem()` the result length is 2 but the buffer is empty, so
      `toString()` cannot read the stem. */
  method StemThenResultUnreadable() returns (s: Stemmer)
    ensures s.endIndex == 2 && s.wordBuffer == []
    ensures !(s.endIndex <= |s.wordBuffer|)
  {
    s := new Stemmer();
    s.Add('i');
    s.Add('s');
    s.Stem();
  }

  /** One stemmer used for two words in turn, with `stem()` as written: `stem()` empties the
      buffer, so the second word is stemmed on its own, and `getResultLength()` reports the
      length of each stem. The stems themselves are the ghost `sa` and `sb`; the object no
      longer holds them. */
  method StemWords(a: array<char>, b: array<char>) returns (na: int, nb: int, ghost sa: string, ghost sb: string)
    ensures sa == Rules.Stem(a[..]) && na == |sa|
    ensures sb == Rules.Stem(b[..]) && nb == |sb|
  {
    var s := new Stemmer();
    s.AddPortion(a, a.Length);
    assert s.wordBuffer == a[..];
    s.Stem();
    na := s.GetResultLength();
    sa := s.lastStem;
    s.AddPortion(b, b.Length);
    assert s.wordBuffer == b[..];
    s.Stem();
    nb := s.GetResultLength();
    sb := s.lastStem;
  }

  /** One stemmer used for two words in turn with the stem kept readable: each word is stemmed
      in place and read back through `toString()` and `getResultBuffer()`, and the buffer is
      cleared when the next word begins. Each result is the stem of its own word. */
  method StemWordsReadable(a: array<char>, b: array<char>)
    returns (sa: string, ra: array<char>, sb: string, rb: array<char>)
    ensures sa == Rules.Stem(a[..]) && ra[..] == sa
    ensures sb == Rules.Stem(b[..]) && rb[..] == sb
  {
    var s := new Stemmer();
    s.AddPortion(a, a.Length);
    assert s.wordBuffer == a[..];
    s.StemInPlace();
    sa := s.ToString();
    ra := s.GetResultBuffer();
    s.BeginWord();
    s.AddPortion(b, b.Length);
    assert s.wordBuffer == b[..];
    s.StemInPlace();
    sb := s.ToString();
    rb := s.GetResultBuffer();
  }
}
