# Stemmer: a model of a Porter stemmer with a seventh step

This project models the `Stemmer` class of `Stemmer.java`. The class is a suffix-stripping English
stemmer in the style of Porter's algorithm, with one extra pass at the end. A word is appended
character by character to a buffer. `stem()` then rewrites the front of that buffer in place. Two
cursors drive the rewriting:

- `k` is the index of the last character of the word still being stemmed;
- `j` is the match boundary that the last successful `endsWith` test left behind.

`stem()` runs seven steps in a fixed order:

1. plurals, then `-eed`, `-ed` and `-ing`;
2. a final `y` becomes `i`;
3. double suffixes are mapped to single ones;
4. `-ic-`, `-full`, `-ness` and the like;
5. suffixes such as `-ant` and `-ence`, removed when m > 1;
6. a final `e` and a double `l`;
7. the added residual pass over verb suffixes.

Finally `stem()` records the stem length in `endIndex`.

The model has five modules plus worked examples:

- `Classifier` holds the read-only tests as pure functions: the consonant test with its context
  rule for `y`, Porter's measure m, the vowel test, the double-consonant test and the cvc test.
  Lemmas about them cover the closed form of the `y` rule, the bounds and monotonicity of m, and
  what m > 0 and cvc imply.
- `Rules` describes each step as a function on an explicit state `State(buf, k, j)`. It follows
  the Java code branch for branch and in the same order of tests. That includes the writes to
  `j` made by suffix tests that succeed while the rule around them does not fire. The switch
  arms of steps 3, 4 and 5 are written as tables: each character maps to the suffixes that the
  arm tries in order. `Rules.Stem(w)` is the stem that `stem()` leaves for the word `w`.
- `RuleProperties` proves properties that relate several steps or several runs:
  - the boundary `j` left over from an earlier word never changes a stem;
  - in the suffix lists of steps 3 and 4, the first matching entry decides;
  - step 5 removes only a listed suffix, and `ion` only after `s` or `t`;
  - step 7 strips `ing` even when no vowel precedes it.
- `Engine` is the Java class with the same fields. Each method keeps the loops and the order of
  tests of its Java counterpart, and is proved to change the fields exactly as the matching
  `Rules` function says. Consequently the rewriting part of `stem()` leaves `Rules.Stem` of
  the buffer in `buf[0..endIndex)`, just before `stem()` empties the buffer.
- `CaseProperties` proves that a word of lowercase letters has a stem of lowercase letters:
  every character a step writes comes from a lowercase replacement string.
- `StemExamples` works out the stems of `ing`, `caresses`, `feed` and `sing` step by step.

What is proved about a whole run of `stem()`:

- a word of at most two characters is its own stem, and the empty word stems to itself;
- a stem is never longer than its word;
- a word of lowercase letters has a stem of lowercase letters (`CaseProperties.StemKeepsLowercase`);
- after `stem()`, `endIndex == k + 1` and the buffer is empty;
- a second word stemmed with the same object gets its own stem, unaffected by the first
  (`Engine.StemWords`, with `stem()` as written, where only the stem lengths remain observable).
  If the buffer is instead cleared when the next word begins, both stems can be read back
  through `toString()` and `getResultBuffer()` (`Engine.StemWordsReadable`).

### Where this stemmer departs from Porter's published algorithm

The model follows the code. Several outputs therefore differ from the published test vectors of
Porter's algorithm:

- `caresses` stems to `cares`. Step 7 drops the final `s` of `caress`, because m of `cares`
  is 2 (`StemExamples.StemOfCaresses`).
- `feed` stems to `fe` (`StemExamples.StemOfFeed`).
- `sing` stems to `s` (`StemExamples.StemOfSing`). Step 1 keeps `ing` when no vowel precedes
  it, but the last test of step 7 removes `ing` unconditionally. So `ing` alone stems to the
  empty word (`StemExamples.StemOfIng`).

Three further points follow the code rather than a looser reading of it:

- The measure m counts the places where a consonant directly follows a vowel. The code's scan
  does exactly that, so m is not a count of consonant-to-vowel transitions.
- `hasDoubleConsonant` checks that the two characters are equal and that the second one is a
  consonant. For a doubled `y`, the first `y` is then a vowel (`Classifier.DoubleConsonantBoth`).
  The code compares the two list entries as boxed `Character` objects, which are the same object
  only for characters up to U+007F. The model compares values (see Findings).
- `stem()` empties the buffer after setting `endIndex`. So `toString()` and `getResultBuffer()`
  cannot read a non-empty stem afterwards (see Findings).

## Model

| member | source | states |
|---|---|---|
| Classifier.IsConsonant | Stemmer.java:75-81 | `a e i o u` are never consonants and every other letter except `y` always is; a `y` that starts the word is a consonant, and a `y` after another letter that is not `y` is a consonant exactly when that letter is one of `a e i o u` |
| Classifier.Measure | Stemmer.java:87-111 | m of `w[0..j]` is 0 for an empty prefix, at most half the prefix length rounded down, and at most half of one less than that length, rounded down, when the prefix ends in a vowel |
| Classifier.YByRunParity | Stemmer.java:75-81 | in a run of `y`s, the classification alternates: a `y` is a consonant exactly when its place in the run is odd if the run starts the word or follows `a e i o u`, and even otherwise |
| Classifier.MeasureMonotone | Stemmer.java:87-111 | m never decreases as the prefix grows |
| Classifier.MeasureNeedsVowel | Stemmer.java:87-111 | a prefix with m > 0 contains a vowel |
| Classifier.HasVowel | Stemmer.java:117-120 | a vowel can only be found in a non-empty prefix `w[0..j]` |
| Classifier.HasVowelByLetters | Stemmer.java:117-120 | `w[0..j]` holds a vowel exactly when it holds one of `a e i o u`, or a `y` anywhere but at the start |
| Classifier.DoubleConsonant | Stemmer.java:126-130 | a double consonant ends at `i >= 1`, and neither of its two letters is one of `a e i o u`; it agrees with the test as written on characters up to U+007F and includes every pair that test finds |
| Classifier.BoxedDoubleConsonant | Stemmer.java:126-130 | the test as written, comparing the two entries as objects, finds a pair only at `i >= 1` and only for a character up to U+007F |
| Classifier.Cvc | Stemmer.java:136-141 | a cvc ends at `i >= 2`: its first letter is not one of `a e i o u`, its middle letter is one of them or `y`, and its last letter is none of `a e i o u w x y` |
| Classifier.CvcHasMeasure | Stemmer.java:136-141 | a cvc ending at `i` gives the prefix up to `i` a measure of at least 1 |
| Classifier.DoubleConsonantBoth | Stemmer.java:126-130 | for a letter other than `y`, both letters of a double consonant are consonants; for `yy` the first is a vowel |
| Rules.Ends | Stemmer.java:148-155 | a suffix that matches fits inside the active word and ends with the word's last character |
| Rules.Match | Stemmer.java:148-155 | the suffix test never changes the buffer or `k`; on success `j` is the index just before the suffix (at least -1), on failure `j` is unchanged |
| Rules.SetTo | Stemmer.java:161-166 | `setTo(s)` keeps `buf[0..j]`, writes `s` right after `j`, keeps everything after it, and sets `k` to `j` plus the length of `s`; an empty `s` writes nothing |
| Rules.RepIfMeasure | Stemmer.java:172-174 | `repIfMeasureGreaterZero(s)` keeps `j` and the buffer length; with m of `buf[0..j]` zero it changes nothing, and otherwise the buffer keeps `buf[0..j]`, holds `s` right after `j`, keeps the rest, and `k` ends on the last character of `s` |
| Rules.Rule | Stemmer.java:216 | one `if (endsWith(..)) { repIfMeasureGreaterZero(..); break; }` line: without a match the next line decides, with one the word shrinks and is not emptied |
| Rules.Find | Stemmer.java:274-276 | one `if (endsWith(..)) break;` test of step 5: without a match the search goes on; with one it stops with `j` just before the suffix |
| Rules.Step1a | Stemmer.java:181-185 | the plural rules never lengthen the word, never write past `k`, and leave `k >= 0` |
| Rules.Step1bTidy | Stemmer.java:189-197 | the tidying after `-ed`/`-ing` lengthens the word by at most one character and writes nothing past `k + 1` |
| Rules.Step1b | Stemmer.java:186-198 | step 1b as a whole never lengthens the word it was given and never writes past `k` |
| Rules.Step1 | Stemmer.java:180-199 | step 1 never lengthens the word and leaves `k >= 0` |
| Rules.Step2 | Stemmer.java:205-207 | step 2 keeps `k` and writes nothing past it |
| Rules.FirstRule | Stemmer.java:215-244 | a switch arm of steps 3 and 4 never lengthens the word and never empties a non-empty one |
| Rules.Step3Rules | Stemmer.java:215-244 | every suffix of step 3 is non-empty, and every replacement is no longer than its suffix |
| Rules.Step3 | Stemmer.java:213-245 | step 3 never lengthens the word and leaves `k >= 0` |
| Rules.Step4Rules | Stemmer.java:252-264 | every suffix of step 4 is non-empty, and every replacement is no longer than its suffix |
| Rules.Step4 | Stemmer.java:251-265 | step 4 never lengthens the word and leaves `k >= 0` |
| Rules.IonOrOu | Stemmer.java:285-286 | the `o` arm of step 5 reads the word without writing it, and a suffix it finds lies inside the word |
| Rules.Step5Suffixes | Stemmer.java:273-293 | every suffix that step 5 tries is non-empty |
| Rules.FindFirst | Stemmer.java:273-293 | the tests of a step 5 arm read the word without writing it, and a suffix they find lies inside the word |
| Rules.ContextSuffix | Stemmer.java:273-293 | the same for the whole switch of step 5 |
| Rules.Step5 | Stemmer.java:271-296 | step 5 never writes the buffer; `k` either stays or moves back to a boundary `j` before which m > 1 |
| Rules.Step6 | Stemmer.java:302-309 | step 6 never writes the buffer, sets `j` to the old `k`, and removes at most two characters |
| Rules.Step7 | Stemmer.java:315-331 | step 7 never lengthens the word and writes nothing past `k` |
| Rules.Step7Rest | Stemmer.java:320-323 | the `es` and `s` tests of step 7 never lengthen the word |
| Rules.Step7Last | Stemmer.java:324-329 | the `ational`, `tional` and `ing` tests of step 7 never lengthen the word |
| Rules.Steps | Stemmer.java:340-348 | the seven steps together never lengthen the word and write nothing past `k` |
| Rules.StemFrom | Stemmer.java:338-351 | `stem()` started with any leftover `j`: the stem is never longer than the word, and a word of at most two characters is its own stem |
| Rules.Stem | Stemmer.java:338-351 | a stem is never longer than its word, and a word of at most two characters is its own stem |
| RuleProperties.MatchAligns | Stemmer.java:148-155 | two states that differ only in `j` agree on the word after a suffix test, and agree entirely after a successful one |
| RuleProperties.RuleAligns | Stemmer.java:216 | a rule line of steps 3 and 4 rewrites the same word whatever `j` held before |
| RuleProperties.FindAligns | Stemmer.java:274-276 | a step 5 test finds the same suffix whatever `j` held before |
| RuleProperties.Step1aIgnoresBoundary | Stemmer.java:181-185 | the plural rules give the same word whatever `j` held before |
| RuleProperties.Step1aSsesAligns | Stemmer.java:182 | the `sses` rule gives the same state whatever `j` held before |
| RuleProperties.Step1aIesAligns | Stemmer.java:183 | the `ies` rule gives the same state whatever `j` held before |
| RuleProperties.Step1aFinalSAligns | Stemmer.java:184 | the rule for a lone final `s` gives the same word whatever `j` held before |
| RuleProperties.Step1bMatchedAligns | Stemmer.java:186-198 | once `eed`, `ed` or `ing` matches, step 1b's result no longer depends on the old `j` |
| RuleProperties.Step1bUnmatched | Stemmer.java:186-198 | without `eed`, `ed` or `ing`, step 1b changes nothing |
| RuleProperties.Step1bEedAligns | Stemmer.java:186-187 | the `eed` branch of step 1b gives the same word whatever `j` held |
| RuleProperties.Step1bEdAligns | Stemmer.java:188-197 | the `ed` branch of step 1b gives the same word whatever `j` held |
| RuleProperties.Step1bIngAligns | Stemmer.java:188-197 | the `ing` branch of step 1b gives the same word whatever `j` held |
| RuleProperties.Step1bNoneAligns | Stemmer.java:186-198 | without a matching suffix, step 1b gives the same word whatever `j` held |
| RuleProperties.Step1bIgnoresBoundary | Stemmer.java:186-198 | step 1b gives the same word whatever `j` held before |
| RuleProperties.Step1IgnoresBoundary | Stemmer.java:180-199 | step 1 gives the same word whatever `j` held before |
| RuleProperties.Step2IgnoresBoundary | Stemmer.java:205-207 | step 2 gives the same word whatever `j` held before |
| RuleProperties.FirstRuleAligns | Stemmer.java:215-244 | a switch arm of steps 3 and 4 gives the same word whatever `j` held before |
| RuleProperties.Step3IgnoresBoundary | Stemmer.java:213-245 | step 3 gives the same word whatever `j` held before |
| RuleProperties.Step4IgnoresBoundary | Stemmer.java:251-265 | step 4 gives the same word whatever `j` held before |
| RuleProperties.FirstRuleNone | Stemmer.java:215-244 | an arm none of whose suffixes ends the word changes nothing, not even `j` |
| RuleProperties.FirstRuleFirstMatch | Stemmer.java:215-244 | the first entry whose suffix ends the word decides: its replacement is made when m > 0, and no later entry is tried |
| RuleProperties.FirstRuleOne | Stemmer.java:222 | an arm with one entry is that entry's rule line |
| RuleProperties.FirstRuleFour | Stemmer.java:234-237 | an arm with four entries is their rule lines in order |
| RuleProperties.FindFirstOne | Stemmer.java:274 | a step 5 arm with one suffix is that suffix's test |
| RuleProperties.FindFirstTwo | Stemmer.java:275-276 | a step 5 arm with two suffixes is their tests in order |
| RuleProperties.FindFirstFour | Stemmer.java:281-284 | a step 5 arm with four suffixes is their tests in order |
| RuleProperties.FindFirstAligns | Stemmer.java:273-293 | the tests of a step 5 arm find the same suffix whatever `j` held before |
| RuleProperties.IonOrOuAligns | Stemmer.java:285-286 | the `o` arm of step 5 finds the same suffix whatever `j` held before |
| RuleProperties.ContextSuffixAligns | Stemmer.java:273-293 | the switch of step 5 finds the same suffix whatever `j` held before |
| RuleProperties.Step5IgnoresBoundary | Stemmer.java:271-296 | step 5 gives the same word whatever `j` held before |
| RuleProperties.Step6IgnoresBoundary | Stemmer.java:302-309 | step 6 starts with `j = k`, so its result does not depend on `j` at all |
| RuleProperties.StemIgnoresStaleBoundary | Stemmer.java:338-351 | the `j` left over from an earlier word never changes the stem of the next one |
| RuleProperties.StemIsStepsPrefix | Stemmer.java:338-351 | for a word of more than two characters, the stem is what the seven steps leave in front of the end cursor, whatever `j` they start from |
| RuleProperties.Step7StripsBareIng | Stemmer.java:315-331 | when no vowel precedes a final `ing`, step 7 still removes it, through its last test |
| RuleProperties.Step7RestAfterG | Stemmer.java:320-323 | the `es` and `s` tests of step 7 do not fire on a word ending in `g` |
| RuleProperties.Step7LastOnIng | Stemmer.java:324-329 | on a word ending in `ing`, the last tests of step 7 remove exactly the `ing` |
| RuleProperties.Step5IonOnlyAfterSOrT | Stemmer.java:285 | step 5 removes `ion` only when `s` or `t` precedes it |
| RuleProperties.IonMatchedAfterSOrT | Stemmer.java:285-286 | when the step 5 tests match on a word ending in `ion`, the character before `ion` is `s` or `t` |
| RuleProperties.FindFirstListed | Stemmer.java:273-293 | a suffix found by the tests of a step 5 arm is one of the arm's suffixes, right after `j` |
| RuleProperties.Step5SuffixesListed | Stemmer.java:273-293 | every suffix in the step 5 arms is one of the nineteen suffixes the step removes (`RuleProperties.ContextSuffixes`) |
| RuleProperties.IonOrOuListed | Stemmer.java:285-286 | a suffix found by the `o` arm is `ion` or `ou`, right after `j` |
| RuleProperties.ContextSuffixListed | Stemmer.java:273-293 | whatever the step 5 tests find is one of those nineteen suffixes, right after `j` |
| RuleProperties.Step5RemovesListedSuffix | Stemmer.java:271-296 | when step 5 shortens the word, what it removes is one of those nineteen suffixes, and the stem that remains has m > 1 |
| RuleProperties.Step5Unmatched | Stemmer.java:271-296 | when the step 5 tests find nothing, step 5 keeps the state the tests left |
| RuleProperties.Step5MovesToBoundary | Stemmer.java:295 | when step 5 moves `k`, a test matched and `k` moves to the boundary it set |
| Engine.Stemmer.constructor | Stemmer.java:15-17 | a new stemmer has an empty buffer |
| Engine.Stemmer.Add | Stemmer.java:23-25 | `add(ch)` appends `ch` to the buffer |
| Engine.Stemmer.AddPortion | Stemmer.java:32-36 | `add(word, wordLen)` appends `word[0..wordLen)`, or nothing for a negative length |
| Engine.Stemmer.ToString | Stemmer.java:42-48 | `toString()` returns the first `endIndex` characters of the buffer; they must exist |
| Engine.Stemmer.GetResultLength | Stemmer.java:54-56 | `getResultLength()` returns `endIndex` |
| Engine.Stemmer.GetResultBuffer | Stemmer.java:62-68 | `getResultBuffer()` returns a new array holding the first `endIndex` characters |
| Engine.Stemmer.MeasureConsonantSequences | Stemmer.java:87-111 | the scan with three nested loops computes Porter's m of `buf[0..j]` |
| Engine.Stemmer.ContainsVowel | Stemmer.java:117-120 | the loop returns true exactly when `buf[0..j]` holds a vowel |
| Engine.Stemmer.EndsWith | Stemmer.java:148-155 | the character loop answers whether the active word ends with `s`, and moves `j` only on success |
| Engine.Stemmer.SetTo | Stemmer.java:161-166 | the loop writes `s` after `j` and sets `k`, as `Rules.SetTo` describes |
| Engine.Stemmer.RepIfMeasureGreaterZero | Stemmer.java:172-174 | `setTo(s)` happens exactly when m of `buf[0..j]` is positive |
| Engine.Stemmer.ReplaceSuffix | Stemmer.java:216 | reports whether the suffix matched; on a match the state is the rule's rewrite, otherwise unchanged |
| Engine.Stemmer.RemovePluralsAndEdOrIng | Stemmer.java:180-199 | the method does what `Rules.Step1` describes |
| Engine.Stemmer.RemovePlurals | Stemmer.java:181-185 | the method does what `Rules.Step1a` describes |
| Engine.Stemmer.RemoveEdOrIng | Stemmer.java:186-198 | the method does what `Rules.Step1b` describes |
| Engine.Stemmer.TidyStem | Stemmer.java:189-197 | the method does what `Rules.Step1bTidy` describes |
| Engine.Stemmer.TransformTerminalYToI | Stemmer.java:205-207 | the method does what `Rules.Step2` describes |
| Engine.Stemmer.ReplaceFirst | Stemmer.java:215-244 | trying an arm's lines in order does what `Rules.FirstRule` describes |
| Engine.Stemmer.MapDoubleSuffixesToSingle | Stemmer.java:213-245 | the method does what `Rules.Step3` describes, including the early return when `k == 0` |
| Engine.Stemmer.HandleSuffixes | Stemmer.java:251-265 | the method does what `Rules.Step4` describes |
| Engine.Stemmer.RemoveSuffixesInContext | Stemmer.java:271-296 | the method does what `Rules.Step5` describes |
| Engine.Stemmer.FindContextSuffix | Stemmer.java:273-294 | the switch of step 5 finds what `Rules.ContextSuffix` finds and leaves `j` where it says |
| Engine.Stemmer.FindIonOrOu | Stemmer.java:285-286 | the `o` arm finds what `Rules.IonOrOu` finds and leaves `j` where it says |
| Engine.Stemmer.RemoveFinalE | Stemmer.java:302-309 | the method does what `Rules.Step6` describes |
| Engine.Stemmer.HandleVerbSuffixes | Stemmer.java:315-331 | the method does what `Rules.Step7` describes |
| Engine.Stemmer.HandleLaterVerbSuffixes | Stemmer.java:320-323 | the method does what `Rules.Step7Rest` describes |
| Engine.Stemmer.HandleLastVerbSuffixes | Stemmer.java:324-329 | the method does what `Rules.Step7Last` describes |
| Engine.Stemmer.RunSteps | Stemmer.java:340-348 | the seven step methods in order do what `Rules.Steps` describes |
| Engine.Stemmer.StemInPlace | Stemmer.java:338-349 | `stem()` without the clearing of line 350: the buffer keeps its length, `endIndex == k + 1` lies within it, the front `buf[0..endIndex)` is `Rules.Stem` of the old buffer, so `toString()` and `getResultBuffer()` can read it, and a word of at most two characters keeps its length |
| Engine.Stemmer.BeginWord | Stemmer.java:350 | the clearing of line 350, done when the next word begins: the buffer is empty |
| Engine.Stemmer.Stem | Stemmer.java:338-351 | `stem()` computes `Rules.Stem` of the buffer with `endIndex == k + 1` as its length, then leaves the buffer empty |
| Engine.StemThenResultUnreadable | Stemmer.java:386-390 | after `add('i')`, `add('s')`, `stem()`, `endIndex` is 2 but the buffer is empty, so `toString()` cannot be called |
| Engine.StemWords | Stemmer.java:338-351 | one stemmer used for two words with `stem()` as written: the ghost record of each stem is `Rules.Stem` of its own word, and `getResultLength()` reports its length, so nothing of the first word reaches the second |
| Engine.StemWordsReadable | Stemmer.java:23-68 | one stemmer used for two words with the stem kept readable and the buffer cleared when the next word begins: `toString()` returns `Rules.Stem` of each word and `getResultBuffer()` holds the same characters |
| CaseProperties.SetToLower | Stemmer.java:161-166 | writing a lowercase string into a lowercase buffer leaves it lowercase |
| CaseProperties.RuleLower | Stemmer.java:216 | a rule line with a lowercase replacement keeps a lowercase buffer lowercase |
| CaseProperties.FirstRuleLower | Stemmer.java:215-244 | an arm of steps 3 and 4 whose replacements are lowercase keeps a lowercase buffer lowercase |
| CaseProperties.Step3RulesLower | Stemmer.java:215-244 | every replacement of step 3 is lowercase |
| CaseProperties.Step4RulesLower | Stemmer.java:252-264 | every replacement of step 4 is lowercase |
| CaseProperties.Step1Lower | Stemmer.java:180-199 | step 1 keeps a lowercase buffer lowercase |
| CaseProperties.Step1bLower | Stemmer.java:186-198 | step 1b keeps a lowercase buffer lowercase |
| CaseProperties.Step1bTidyLower | Stemmer.java:189-197 | the tidying of step 1b keeps a lowercase buffer lowercase |
| CaseProperties.Step2Lower | Stemmer.java:205-207 | step 2 keeps a lowercase buffer lowercase |
| CaseProperties.Step3Lower | Stemmer.java:213-245 | step 3 keeps a lowercase buffer lowercase |
| CaseProperties.Step4Lower | Stemmer.java:251-265 | step 4 keeps a lowercase buffer lowercase |
| CaseProperties.Step7Lower | Stemmer.java:315-331 | step 7 keeps a lowercase buffer lowercase |
| CaseProperties.Step7RestLower | Stemmer.java:320-323 | the `es` and `s` tests of step 7 keep a lowercase buffer lowercase |
| CaseProperties.Step7LastLower | Stemmer.java:324-329 | the last tests of step 7 keep a lowercase buffer lowercase |
| CaseProperties.StepsLower | Stemmer.java:340-348 | the seven steps keep a lowercase buffer lowercase; steps 5 and 6 never write it |
| CaseProperties.StemKeepsLowercase | Stemmer.java:338-351 | a word of lowercase letters `a` to `z` has a stem of lowercase letters |
| StemExamples.StemOfIng | Stemmer.java:328-329 | `ing` stems to the empty word |
| StemExamples.StemOfCaresses | Stemmer.java:322-323 | `caresses` stems to `cares` |
| StemExamples.StemOfFeed | Stemmer.java:318-319 | `feed` stems to `fe` |
| StemExamples.StemOfSing | Stemmer.java:328-329 | `sing` stems to `s` |
| StemExamples.DoubledEnyeAsWritten | Stemmer.java:189-197 | for `taññed` after `ed` is removed, no tidying rule of the code applies, because the test as written does not see `ññ` as a pair, while the comparison by value does |
| StemExamples.DoubledEnyeByValue | Stemmer.java:180-199 | with the comparison by value, step 1 takes `taññed` to `tañ` |

## Left out

- `main` (Stemmer.java:357-414) is not modelled. It reads files, splits them into runs of letters, lowercases the runs, prints the stems and reports I/O errors.
- Lowercase input is not required. The stemmer treats every character other than `a e i o u y` as a consonant, and the model accepts any Unicode scalar value as a character. "Lowercase in, lowercase out" is proved separately, for words made of `a` to `z` (`CaseProperties.StemKeepsLowercase`).
- Lone UTF-16 surrogates (U+D800 to U+DFFF), which `add(char)` accepts, are not characters in the model, so words containing them are not covered.
- Classifier.DoubleConsonant: compares the two characters by value, as the code evidently intends. The code compares two boxed `Character` objects, which differ for equal characters above U+007F. So for a doubled letter such as the `ññ` of `taññed`, the model's step 1b drops one letter where the code keeps both (see Findings; `Classifier.BoxedDoubleConsonant` is the test as written).
- Java exceptions are not modelled. Where the Java code would throw (an index outside the list, a negative array size, reading past the end of the array passed to `add`), the method has a precondition that excludes the case.
- The `int` fields are unbounded integers. A 32-bit overflow would need a buffer of about 2^31 characters, which the Java list cannot hold.
- Engine.StemWords: the text of each stem is stated only as a ghost value, because `stem()` as written discards it; what the object still reports is its length.
- Engine.Stemmer.Stem: the stem that `stem()` discards lives on only in the ghost field `lastStem`, which the Java object does not have. It states in the contract what the discarded buffer held.
- The switch arms of steps 3 and 4 are data (`Rules.Step3Rules`, `Rules.Step4Rules`) walked by `Engine.Stemmer.ReplaceFirst`, not unrolled `if` chains. The tests, their order and their effects are the same.

## Findings

| source | as written | input that shows it | evidently intended | confidence | as-written member | corrected member |
|---|---|---|---|---|---|---|
| Stemmer.java:349-350 | `stem()` sets `endIndex = k + 1` and then replaces `wordBuffer` by a new empty list, so `toString()` and `getResultBuffer()` read positions `0 .. endIndex - 1` of an empty list | `add('i')`, `add('s')`, `stem()`, then `toString()`: `endIndex` is 2 and the buffer is empty, so `get(0)` is out of bounds (the driver makes this call sequence at lines 386-390) | the stem stays readable through `toString()` and `getResultBuffer()`, and the buffer is cleared when the next word begins (`Engine.Stemmer.BeginWord`); `Engine.StemWordsReadable` reads two stems this way | high; not executed | Engine.StemThenResultUnreadable | Engine.Stemmer.StemInPlace |
| Stemmer.java:128 | `wordBuffer.get(j) != wordBuffer.get(j - 1)` compares two boxed `Character` objects; every entry is boxed on its own, and boxing shares objects only for characters up to U+007F, so two equal characters above it never form a double consonant | `taññed`: after `ed` is removed the code keeps `taññ`, because no tidying rule applies (`StemExamples.DoubledEnyeAsWritten`) | the characters are compared by value, so `ññ` is a double consonant and step 1b leaves `tañ` | high; not executed | Classifier.BoxedDoubleConsonant | Classifier.DoubleConsonant |
