/** The rule engine as functions on an explicit state: the buffer, the end cursor `k` and the
    match boundary `j`. Each step function says what one step method of the stemmer does to
    these three, branch for branch and in the same order of tests, including the updates to
    `j` made by suffix tests that succeed while the rule around them does not fire. */
module Rules {
  import opened Classifier

  /** The engine's state while a word is stemmed. `k` is the index of the last character
      of the active word, `j` the boundary set by the last successful suffix test. */
  datatype State = State(buf: seq<char>, k: int, j: int)

  /** The end cursor lies in `[-1, |buf|)`. */
  predicate WellFormed(st: State) {
    -1 <= st.k < |st.buf|
  }

  /** What every step keeps: the buffer keeps its length, the end cursor stays well formed and
      never moves right, and no position after the active word is written. */
  predicate Shrinks(st: State, r: State)
    requires WellFormed(st)
  {
    WellFormed(r) && |r.buf| == |st.buf| && r.k <= st.k
    && (forall i :: st.k < i < |st.buf| ==> r.buf[i] == st.buf[i])
  }

  /** What step 5 does: the buffer is untouched, and `k` either stays or moves back to a
      boundary `j` before which m > 1. */
  predicate Trims(st: State, r: State)
    requires WellFormed(st)
  {
    r.buf == st.buf && 0 <= r.k
    && (r.k == st.k || (r.k == r.j < st.k && Measure(st.buf, r.j) > 1))
  }

  // ---------------------------------------------------------------- buffer primitives

  /** The active word `buf[0..k]` ends with `s`. */
  predicate Ends(st: State, s: string)
    requires st.k < |st.buf|
    ensures Ends(st, s) ==> |s| <= st.k + 1
    ensures Ends(st, s) && |s| > 0 ==> st.buf[st.k] == s[|s| - 1]
  {
    |s| <= st.k + 1 && st.buf[st.k + 1 - |s| .. st.k + 1] == s
  }

  /** The state after the suffix test `endsWith(s)`: on success `j` is the index just before
      the suffix, on failure nothing changes. */
  function Match(st: State, s: string): (r: State)
    requires st.k < |st.buf|
    ensures r.buf == st.buf && r.k == st.k
    ensures Ends(st, s) ==> r.j == st.k - |s| && -1 <= r.j
    ensures !Ends(st, s) ==> r.j == st.j
  {
    if Ends(st, s) then st.(j := st.k - |s|) else st
  }

  /** The state after `setTo(s)`: `s` is written at `j + 1 .. j + |s|` and `k` moves to its
      last character. */
  function SetTo(st: State, s: string): (r: State)
    requires -1 <= st.j && st.j + |s| < |st.buf|
    ensures |r.buf| == |st.buf| && r.k == st.j + |s| && r.j == st.j
    ensures forall i :: 0 <= i <= st.j ==> r.buf[i] == st.buf[i]
    ensures forall i :: st.j < i <= r.k ==> r.buf[i] == s[i - st.j - 1]
    ensures forall i :: r.k < i < |st.buf| ==> r.buf[i] == st.buf[i]
    ensures WellFormed(st) && r.k <= st.k ==> Shrinks(st, r)
    ensures |s| == 0 ==> r.buf == st.buf
  {
    State(st.buf[..st.j + 1] + s + st.buf[st.j + 1 + |s|..], st.j + |s|, st.j)
  }

  /** The state after `repIfMeasureGreaterZero(s)`: `setTo(s)` when m of `buf[0..j]` is
      positive, otherwise no change. */
  function RepIfMeasure(st: State, s: string): (r: State)
    requires -1 <= st.j && st.j + |s| < |st.buf|
    ensures |r.buf| == |st.buf| && r.j == st.j
    ensures Measure(st.buf, st.j) == 0 ==> r == st
    ensures Measure(st.buf, st.j) > 0 ==>
      r.k == st.j + |s| && r.buf[..st.j + 1] == st.buf[..st.j + 1]
      && r.buf[st.j + 1 .. r.k + 1] == s && r.buf[r.k + 1..] == st.buf[r.k + 1..]
  {
    if Measure(st.buf, st.j) > 0 then SetTo(st, s) else st
  }

  /** One entry of a first-match-wins suffix list of steps 3 and 4: if the word ends with
      `suffix`, replace it by `rep` when m > 0 and stop; otherwise go on with `otherwise`. */
  function Rule(st: State, suffix: string, rep: string, otherwise: State): (r: State)
    requires WellFormed(st) && 0 < |suffix| && |rep| <= |suffix|
    ensures !Ends(st, suffix) ==> r == otherwise
    ensures Ends(st, suffix) ==> Shrinks(st, r) && 0 <= r.k
  {
    if Ends(st, suffix) then RepIfMeasure(Match(st, suffix), rep) else otherwise
  }

  /** The outcome of the suffix tests of step 5: whether a listed suffix was found, and the
      state with `j` as the tests left it. */
  datatype Found = Found(matched: bool, st: State)

  /** The suffix tests of step 5 read `st` without writing the buffer or moving `k`, and a
      suffix they find is not empty and lies inside the active word. */
  predicate Within(st: State, f: Found) {
    f.st.buf == st.buf && f.st.k == st.k && (f.matched ==> -1 <= f.st.j < st.k)
  }

  /** One `if (endsWith(suffix)) break;` test of step 5: on a match the search stops with `j`
      just before the suffix, otherwise it goes on with `otherwise`. */
  function Find(st: State, suffix: string, otherwise: Found): (r: Found)
    requires WellFormed(st) && 0 < |suffix|
    ensures !Ends(st, suffix) ==> r == otherwise
    ensures Ends(st, suffix) ==> r.matched && r.st == Match(st, suffix)
    ensures Within(st, otherwise) ==> Within(st, r)
  {
    if Ends(st, suffix) then Found(true, Match(st, suffix)) else otherwise
  }

  // ---------------------------------------------------------------- step 1 (1a and 1b)

  /** Porter's step 1a: `sses -> ss`, `ies -> i`, and a final `s` not preceded by `s` dropped. */
  function Step1a(st: State): (r: State)
    requires WellFormed(st) && 2 <= st.k
    ensures Shrinks(st, r) && 0 <= r.k
  {
    if st.buf[st.k] == 's' then
      if Ends(st, "sses") then Match(st, "sses").(k := st.k - 2)
      else if Ends(st, "ies") then SetTo(Match(st, "ies"), "i")
      else if st.buf[st.k - 1] != 's' then st.(k := st.k - 1)
      else st
    else st
  }

  /** The tidying of step 1b after `ed` or `ing` was removed (`k == j` on entry, and at least
      two characters of the original word lie after `k`): `at`, `bl`, `iz` gain an `e`, a
      double consonant other than `ll`, `ss`, `zz` loses one letter, and a cvc stem with m = 1
      gains an `e`. Only here does a rewrite lengthen the active word, by one character. */
  function Step1bTidy(st: State): (r: State)
    requires 0 <= st.k && st.k + 2 < |st.buf| && st.j == st.k
    ensures WellFormed(r) && |r.buf| == |st.buf| && 0 <= r.k <= st.k + 1
    ensures forall i :: st.k + 1 < i < |st.buf| ==> r.buf[i] == st.buf[i]
  {
    if Ends(st, "at") then SetTo(Match(st, "at"), "ate")
    else if Ends(st, "bl") then SetTo(Match(st, "bl"), "ble")
    else if Ends(st, "iz") then SetTo(Match(st, "iz"), "ize")
    else if DoubleConsonant(st.buf, st.k) then
      var c := st.buf[st.k - 1];
      if c == 'l' || c == 's' || c == 'z' then st else st.(k := st.k - 1)
    else if Measure(st.buf, st.j) == 1 && Cvc(st.buf, st.k) then SetTo(st, "e")
    else st
  }

  /** Porter's step 1b: `eed -> ee` when m > 0; otherwise `ed` or `ing` is removed when the
      stem before it contains a vowel, followed by the tidying. */
  function Step1b(st: State): (r: State)
    requires WellFormed(st) && 0 <= st.k
    ensures Shrinks(st, r) && 0 <= r.k
  {
    if Ends(st, "eed") then
      var e := Match(st, "eed");
      if Measure(e.buf, e.j) > 0 then e.(k := e.k - 1) else e
    else
      var e := if Ends(st, "ed") then Match(st, "ed") else Match(st, "ing");
      if (Ends(st, "ed") || Ends(st, "ing")) && HasVowel(e.buf, e.j) then
        Step1bTidy(e.(k := e.j))
      else e
  }

  /** Step 1 of the stemmer: plurals, then `-eed`, `-ed` and `-ing`. */
  function Step1(st: State): (r: State)
    requires WellFormed(st) && 2 <= st.k
    ensures Shrinks(st, r) && 0 <= r.k
  {
    Step1b(Step1a(st))
  }

  // ---------------------------------------------------------------- steps 2 to 6

  /** Step 2: a terminal `y` becomes `i` when the stem before it contains a vowel. */
  function Step2(st: State): (r: State)
    requires WellFormed(st)
    ensures Shrinks(st, r) && r.k == st.k
  {
    var e := Match(st, "y");
    if Ends(st, "y") && HasVowel(e.buf, e.j) then e.(buf := e.buf[e.k := 'i']) else e
  }

  /** One entry of the suffix lists of steps 3 and 4: the suffix and what replaces it. */
  datatype Rewrite = Rewrite(suffix: string, rep: string)

  /** The suffix is not empty and its replacement is no longer. */
  predicate Shortens(e: Rewrite) {
    0 < |e.suffix| && |e.rep| <= |e.suffix|
  }

  /** Every entry of the list shortens. */
  predicate Shortening(rules: seq<Rewrite>) {
    forall i :: 0 <= i < |rules| ==> Shortens(rules[i])
  }

  /** The entries `rules[from..]` tried in order: the first suffix that matches is replaced
      when m > 0, and no later entry is tried. */
  function FirstRule(st: State, rules: seq<Rewrite>, from: nat): (r: State)
    requires WellFormed(st) && Shortening(rules)
    ensures Shrinks(st, r) && (0 <= st.k ==> 0 <= r.k)
    decreases |rules| - from
  {
    if from >= |rules| then st
    else Rule(st, rules[from].suffix, rules[from].rep, FirstRule(st, rules, from + 1))
  }

  /** The suffix list of step 3 for each next-to-last character. */
  function Step3Rules(c: char): (rules: seq<Rewrite>)
    ensures Shortening(rules)
  {
    match c
      case 'a' => [Rewrite("ational", "ate"), Rewrite("tional", "tion")]
      case 'c' => [Rewrite("enci", "ence"), Rewrite("anci", "ance")]
      case 'e' => [Rewrite("izer", "ize")]
      case 'l' =>
        [Rewrite("bli", "ble"), Rewrite("alli", "al"), Rewrite("entli", "ent"), Rewrite("eli", "e"),
         Rewrite("ousli", "ous")]
      case 'o' => [Rewrite("ization", "ize"), Rewrite("ation", "ate"), Rewrite("ator", "ate")]
      case 's' =>
        [Rewrite("alism", "al"), Rewrite("iveness", "ive"), Rewrite("fulness", "ful"),
         Rewrite("ousness", "ous")]
      case 't' => [Rewrite("aliti", "al"), Rewrite("iviti", "ive"), Rewrite("biliti", "ble")]
      case 'g' => [Rewrite("logi", "log")]
      case _ => []
  }

  /** Step 3: double suffixes to single ones, dispatched on the next-to-last character. */
  function Step3(st: State): (r: State)
    requires WellFormed(st) && 0 <= st.k
    ensures Shrinks(st, r) && 0 <= r.k
  {
    if st.k == 0 then st else FirstRule(st, Step3Rules(st.buf[st.k - 1]), 0)
  }

  /** The suffix list of step 4 for each last character. */
  function Step4Rules(c: char): (rules: seq<Rewrite>)
    ensures Shortening(rules)
  {
    match c
      case 'e' => [Rewrite("icate", "ic"), Rewrite("ative", ""), Rewrite("alize", "al")]
      case 'i' => [Rewrite("iciti", "ic")]
      case 'l' => [Rewrite("ical", "ic"), Rewrite("ful", "")]
      case 's' => [Rewrite("ness", "")]
      case _ => []
  }

  /** Step 4: `-ic-`, `-full`, `-ness` and the like, dispatched on the last character. */
  function Step4(st: State): (r: State)
    requires WellFormed(st) && 0 <= st.k
    ensures Shrinks(st, r) && 0 <= r.k
  {
    FirstRule(st, Step4Rules(st.buf[st.k]), 0)
  }

  /** The `o` entry of the suffix tests of step 5: `ion` counts only when the character
      before it is `s` or `t`; otherwise `ou` is tried, with `j` as the `ion` test left it. */
  function IonOrOu(st: State): (f: Found)
    requires WellFormed(st) && 1 <= st.k
    ensures Within(st, f)
  {
    var e := Match(st, "ion");
    if Ends(st, "ion") && e.j >= 0 && (st.buf[e.j] == 's' || st.buf[e.j] == 't') then Found(true, e)
    else Find(st, "ou", Found(false, e))
  }

  /** The suffixes step 5 tries, in order, for each next-to-last character other than `o`. */
  function Step5Suffixes(c: char): (suffixes: seq<string>)
    ensures forall i :: 0 <= i < |suffixes| ==> 0 < |suffixes[i]|
  {
    match c
      case 'a' => ["al"]
      case 'c' => ["ance", "ence"]
      case 'e' => ["er"]
      case 'i' => ["ic"]
      case 'l' => ["able", "ible"]
      case 'n' => ["ant", "ement", "ment", "ent"]
      case 's' => ["ism"]
      case 't' => ["ate", "iti"]
      case 'u' => ["ous"]
      case 'v' => ["ive"]
      case 'z' => ["ize"]
      case _ => []
  }

  /** The tests `if (endsWith(suffixes[i])) break;` for `i` from `from` on: the first suffix
      that matches stops the search. */
  function FindFirst(st: State, suffixes: seq<string>, from: nat): (f: Found)
    requires WellFormed(st) && forall i :: 0 <= i < |suffixes| ==> 0 < |suffixes[i]|
    ensures Within(st, f)
    decreases |suffixes| - from
  {
    if from >= |suffixes| then Found(false, st)
    else Find(st, suffixes[from], FindFirst(st, suffixes, from + 1))
  }

  /** The suffix tests of step 5, dispatched on the next-to-last character. */
  function ContextSuffix(st: State): (f: Found)
    requires WellFormed(st) && 1 <= st.k
    ensures Within(st, f)
  {
    var c := st.buf[st.k - 1];
    if c == 'o' then IonOrOu(st) else FindFirst(st, Step5Suffixes(c), 0)
  }

  /** Step 5: removes `-ant`, `-ence` and the like, found by the suffix tests, when m > 1.
      The buffer is never written. */
  function Step5(st: State): (r: State)
    requires WellFormed(st) && 0 <= st.k
    ensures Shrinks(st, r) && Trims(st, r)
  {
    if st.k == 0 then st
    else
      var f := ContextSuffix(st);
      if f.matched && Measure(f.st.buf, f.st.j) > 1 then f.st.(k := f.st.j) else f.st
  }

  /** Step 6: with `j := k`, a final `e` is dropped when m > 1, or when m = 1 and the stem
      before it is not cvc; then a final `ll` loses one `l` when m > 1 (m still taken over
      the word as it was before the `e` was dropped). The buffer is never written. */
  function Step6(st: State): (r: State)
    requires WellFormed(st) && 0 <= st.k
    ensures Shrinks(st, r) && 0 <= r.k
    ensures r.buf == st.buf && r.j == st.k && st.k - 2 <= r.k
  {
    var e := st.(j := st.k);
    var m := Measure(e.buf, e.j);
    var e := if e.buf[e.k] == 'e' && (m > 1 || (m == 1 && !Cvc(e.buf, e.k - 1))) then e.(k := e.k - 1) else e;
    if e.buf[e.k] == 'l' && DoubleConsonant(e.buf, e.k) && m > 1 then e.(k := e.k - 1) else e
  }

  // ---------------------------------------------------------------- step 7

  /** Step 7, the residual verb suffixes; the tests are tried in order and each failed
      conjunction keeps the `j` its suffix test set. A stem with a vowel loses `ing` for `e`
      or loses `ed`. */
  function Step7(st: State): (r: State)
    requires WellFormed(st)
    ensures Shrinks(st, r)
  {
    var e1 := Match(st, "ing");
    if Ends(st, "ing") && HasVowel(e1.buf, e1.j) then SetTo(e1, "e")
    else
      var e2 := Match(e1, "ed");
      if Ends(st, "ed") && HasVowel(e2.buf, e2.j) then SetTo(e2, "")
      else Step7Rest(e2)
  }

  /** The middle tests of step 7: `es -> e` when m > 0, and a final `s` dropped when
      m > 1. */
  function Step7Rest(st: State): (r: State)
    requires WellFormed(st)
    ensures Shrinks(st, r)
  {
    var e3 := Match(st, "es");
    if Ends(st, "es") && Measure(e3.buf, e3.j) > 0 then SetTo(e3, "e")
    else
      var e4 := Match(e3, "s");
      if Ends(st, "s") && Measure(e4.buf, e4.j) > 1 then SetTo(e4, "")
      else Step7Last(e4)
  }

  /** The last tests of step 7: `ational -> ate` and `tional -> tion` when m > 0, and
      finally `ing` dropped whatever precedes it. */
  function Step7Last(st: State): (r: State)
    requires WellFormed(st)
    ensures Shrinks(st, r)
  {
    Rule(st, "ational", "ate", Rule(st, "tional", "tion",
      if Ends(st, "ing") then SetTo(Match(st, "ing"), "") else st))
  }

  // ---------------------------------------------------------------- the pipeline

  /** The seven steps in their fixed order. */
  function Steps(st: State): (r: State)
    requires WellFormed(st) && 2 <= st.k
    ensures Shrinks(st, r)
  {
    Step7(Step6(Step5(Step4(Step3(Step2(Step1(st)))))))
  }

  /** The stem `stem()` leaves in `buf[0..endIndex)` when it starts with the match boundary
      `j0` left over from earlier use: words of at most two characters are kept, longer ones
      run through the seven steps. */
  function StemFrom(w: seq<char>, j0: int): (r: seq<char>)
    ensures |r| <= |w|
    ensures |w| <= 2 ==> r == w
  {
    if |w| - 1 > 1 then
      var st := Steps(State(w, |w| - 1, j0));
      st.buf[..st.k + 1]
    else w
  }

  /** The stem of `w`; it does not depend on the leftover boundary (see
      RuleProperties.StemIgnoresStaleBoundary). The result is never longer than the word, and
      a word of at most two characters is its own stem. */
  function Stem(w: seq<char>): (r: seq<char>)
    ensures |r| <= |w|
    ensures |w| <= 2 ==> r == w
  {
    StemFrom(w, 0)
  }
}
