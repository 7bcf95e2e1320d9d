/** Properties of the rule engine that relate several steps or several runs. */
module RuleProperties {
  import opened Classifier
  import opened Rules

  /** Two states that hold the same active word and may differ only in their match boundary. */
  predicate SameWord(x: State, y: State) {
    x.buf == y.buf && x.k == y.k
  }

  /** A suffix test that succeeds overwrites `j`, so afterwards the two states agree entirely. */
  lemma MatchAligns(x: State, y: State, s: string)
    requires WellFormed(x) && SameWord(x, y)
    ensures SameWord(Match(x, s), Match(y, s))
    ensures Ends(x, s) ==> Match(x, s) == Match(y, s)
  {
  }

  lemma RuleAligns(x: State, y: State, suffix: string, rep: string, ox: State, oy: State)
    requires WellFormed(x) && 0 < |suffix| && |rep| <= |suffix| && SameWord(x, y) && SameWord(ox, oy)
    ensures SameWord(Rule(x, suffix, rep, ox), Rule(y, suffix, rep, oy))
  {
    MatchAligns(x, y, suffix);
    if Ends(x, suffix) {
      assert Ends(y, suffix) && Match(x, suffix) == Match(y, suffix);
    } else {
      assert !Ends(y, suffix);
    }
  }

  /** Two outcomes of the step 5 suffix tests that agree on the word, on whether a suffix was
      found, and, when one was, on the boundary too. */
  predicate SameFound(f: Found, g: Found) {
    f.matched == g.matched && SameWord(f.st, g.st) && (f.matched ==> f.st == g.st)
  }

  lemma FindAligns(x: State, y: State, suffix: string, ox: Found, oy: Found)
    requires WellFormed(x) && 0 < |suffix| && SameWord(x, y) && SameFound(ox, oy)
    ensures SameFound(Find(x, suffix, ox), Find(y, suffix, oy))
  {
    MatchAligns(x, y, suffix);
  }

  lemma Step1aIgnoresBoundary(x: State, y: State)
    requires WellFormed(x) && 2 <= x.k && SameWord(x, y)
    ensures SameWord(Step1a(x), Step1a(y))
  {
    if x.buf[x.k] != 's' {
      assert Step1a(x) == x && Step1a(y) == y;
    } else if Ends(x, "sses") {
      Step1aSsesAligns(x, y);
    } else if Ends(x, "ies") {
      Step1aIesAligns(x, y);
    } else {
      Step1aFinalSAligns(x, y);
    }
  }

  /** The rule for a final `s` alone does not read `j`. */
  lemma Step1aFinalSAligns(x: State, y: State)
    requires WellFormed(x) && 2 <= x.k && SameWord(x, y) && x.buf[x.k] == 's'
    requires !Ends(x, "sses") && !Ends(x, "ies")
    ensures SameWord(Step1a(x), Step1a(y))
  {
    assert !Ends(y, "sses") && !Ends(y, "ies");
    var c := x.buf[x.k - 1];
    assert Step1a(x) == (if c != 's' then x.(k := x.k - 1) else x);
    assert Step1a(y) == (if c != 's' then y.(k := y.k - 1) else y);
  }

  /** The `sses` rule of step 1a overwrites `j` before it uses it. */
  lemma Step1aSsesAligns(x: State, y: State)
    requires WellFormed(x) && 2 <= x.k && SameWord(x, y) && x.buf[x.k] == 's' && Ends(x, "sses")
    ensures Step1a(x) == Step1a(y)
  {
    MatchAligns(x, y, "sses");
    assert Step1a(x) == Match(x, "sses").(k := x.k - 2);
    assert Step1a(y) == Match(y, "sses").(k := y.k - 2);
  }

  /** So does the `ies` rule. */
  lemma Step1aIesAligns(x: State, y: State)
    requires WellFormed(x) && 2 <= x.k && SameWord(x, y) && x.buf[x.k] == 's'
    requires !Ends(x, "sses") && Ends(x, "ies")
    ensures Step1a(x) == Step1a(y)
  {
    MatchAligns(x, y, "ies");
    var e := Match(x, "ies");
    assert e == Match(y, "ies");
    assert Step1a(x) == SetTo(e, "i");
    assert Step1a(y) == SetTo(e, "i");
  }

  /** Once one of `eed`, `ed`, `ing` matches, step 1b no longer reads the old `j`. */
  lemma Step1bMatchedAligns(x: State, y: State, s: string)
    requires WellFormed(x) && 0 <= x.k && SameWord(x, y)
    requires s == "eed" || s == "ed" || s == "ing"
    requires Ends(x, s) && (s != "eed" ==> !Ends(x, "eed")) && (s == "ing" ==> !Ends(x, "ed"))
    ensures Step1b(x) == Step1b(y)
  {
    MatchAligns(x, y, s);
    var e := Match(x, s);
    assert e == Match(y, s);
    assert Ends(y, s) && Ends(y, "eed") == Ends(x, "eed") && Ends(y, "ed") == Ends(x, "ed");
    if s == "eed" {
      assert Step1b(x) == (if Measure(e.buf, e.j) > 0 then e.(k := e.k - 1) else e) == Step1b(y);
    } else {
      assert Step1b(x) == (if HasVowel(e.buf, e.j) then Step1bTidy(e.(k := e.j)) else e) == Step1b(y);
    }
  }

  /** Without one of these suffixes, step 1b changes nothing. */
  lemma Step1bUnmatched(x: State)
    requires WellFormed(x) && 0 <= x.k
    requires !Ends(x, "eed") && !Ends(x, "ed") && !Ends(x, "ing")
    ensures Step1b(x) == x
  {
  }

  /** The same for the three branches of step 1b, each with the tests that lead to it. */
  lemma Step1bEedAligns(x: State, y: State)
    requires WellFormed(x) && 0 <= x.k && SameWord(x, y)
    requires Ends(x, "eed")
    ensures SameWord(Step1b(x), Step1b(y))
  {
    Step1bMatchedAligns(x, y, "eed");
  }

  lemma Step1bEdAligns(x: State, y: State)
    requires WellFormed(x) && 0 <= x.k && SameWord(x, y)
    requires !Ends(x, "eed") && Ends(x, "ed")
    ensures SameWord(Step1b(x), Step1b(y))
  {
    Step1bMatchedAligns(x, y, "ed");
  }

  lemma Step1bIngAligns(x: State, y: State)
    requires WellFormed(x) && 0 <= x.k && SameWord(x, y)
    requires !Ends(x, "eed") && !Ends(x, "ed") && Ends(x, "ing")
    ensures SameWord(Step1b(x), Step1b(y))
  {
    Step1bMatchedAligns(x, y, "ing");
  }

  lemma Step1bNoneAligns(x: State, y: State)
    requires WellFormed(x) && 0 <= x.k && SameWord(x, y)
    requires !Ends(x, "eed") && !Ends(x, "ed") && !Ends(x, "ing")
    ensures SameWord(Step1b(x), Step1b(y))
  {
    assert !Ends(y, "eed") && !Ends(y, "ed") && !Ends(y, "ing");
    Step1bUnmatched(x);
    Step1bUnmatched(y);
  }

  lemma Step1bIgnoresBoundary(x: State, y: State)
    requires WellFormed(x) && 0 <= x.k && SameWord(x, y)
    ensures SameWord(Step1b(x), Step1b(y))
  {
    if Ends(x, "eed") {
      Step1bEedAligns(x, y);
    } else if Ends(x, "ed") {
      Step1bEdAligns(x, y);
    } else if Ends(x, "ing") {
      Step1bIngAligns(x, y);
    } else {
      Step1bNoneAligns(x, y);
    }
  }

  /** Step 1 reads `j` only after a successful suffix test has set it. */
  lemma Step1IgnoresBoundary(x: State, y: State)
    requires WellFormed(x) && 2 <= x.k && SameWord(x, y)
    ensures SameWord(Step1(x), Step1(y))
  {
    Step1aIgnoresBoundary(x, y);
    Step1bIgnoresBoundary(Step1a(x), Step1a(y));
  }

  lemma Step2IgnoresBoundary(x: State, y: State)
    requires WellFormed(x) && SameWord(x, y)
    ensures SameWord(Step2(x), Step2(y))
  {
    MatchAligns(x, y, "y");
  }

  /** The entries of a suffix list of steps 3 and 4 rewrite the same word whatever `j` held
      before them. */
  lemma {:induction false} FirstRuleAligns(x: State, y: State, rules: seq<Rewrite>, from: nat)
    requires WellFormed(x) && SameWord(x, y) && Shortening(rules)
    ensures SameWord(FirstRule(x, rules, from), FirstRule(y, rules, from))
    decreases |rules| - from
  {
    if from < |rules| {
      FirstRuleAligns(x, y, rules, from + 1);
      RuleAligns(x, y, rules[from].suffix, rules[from].rep, FirstRule(x, rules, from + 1),
        FirstRule(y, rules, from + 1));
    }
  }

  lemma Step3IgnoresBoundary(x: State, y: State)
    requires WellFormed(x) && 0 <= x.k && SameWord(x, y)
    ensures SameWord(Step3(x), Step3(y))
  {
    if x.k > 0 {
      FirstRuleAligns(x, y, Step3Rules(x.buf[x.k - 1]), 0);
    }
  }

  lemma Step4IgnoresBoundary(x: State, y: State)
    requires WellFormed(x) && 0 <= x.k && SameWord(x, y)
    ensures SameWord(Step4(x), Step4(y))
  {
    FirstRuleAligns(x, y, Step4Rules(x.buf[x.k]), 0);
  }

  /** A suffix list none of whose suffixes ends the word changes nothing. */
  lemma {:induction false} FirstRuleNone(st: State, rules: seq<Rewrite>, from: nat)
    requires WellFormed(st) && Shortening(rules)
    requires forall i :: from <= i < |rules| ==> !Ends(st, rules[i].suffix)
    ensures FirstRule(st, rules, from) == st
    decreases |rules| - from
  {
    if from < |rules| {
      FirstRuleNone(st, rules, from + 1);
    }
  }

  /** The first entry whose suffix ends the word decides: its replacement is made when m of
      the stem before the suffix is positive, and no later entry is tried. */
  lemma {:induction false} FirstRuleFirstMatch(st: State, rules: seq<Rewrite>, from: nat, i: nat)
    requires WellFormed(st) && Shortening(rules) && from <= i < |rules|
    requires Ends(st, rules[i].suffix)
    requires forall t :: from <= t < i ==> !Ends(st, rules[t].suffix)
    ensures FirstRule(st, rules, from) == RepIfMeasure(Match(st, rules[i].suffix), rules[i].rep)
    decreases i - from
  {
    var e := rules[from];
    assert Shortens(e);
    if from < i {
      assert !Ends(st, e.suffix);
      FirstRuleFirstMatch(st, rules, from + 1, i);
      assert FirstRule(st, rules, from) == FirstRule(st, rules, from + 1);
    } else {
      assert FirstRule(st, rules, from) == Rule(st, e.suffix, e.rep, FirstRule(st, rules, from + 1));
    }
  }

  /** Suffix lists of steps 3 and 4 with one or four entries, written out in the order the
      stemmer tries them. */
  lemma FirstRuleOne(st: State, a: Rewrite)
    requires WellFormed(st) && Shortens(a)
    ensures FirstRule(st, [a], 0) == Rule(st, a.suffix, a.rep, st)
  {
    assert FirstRule(st, [a], 1) == st;
  }

  lemma FirstRuleFour(st: State, a: Rewrite, b: Rewrite, c: Rewrite, d: Rewrite)
    requires WellFormed(st) && Shortens(a) && Shortens(b) && Shortens(c) && Shortens(d)
    ensures FirstRule(st, [a, b, c, d], 0)
      == Rule(st, a.suffix, a.rep, Rule(st, b.suffix, b.rep, Rule(st, c.suffix, c.rep,
           Rule(st, d.suffix, d.rep, st))))
  {
    var t := [a, b, c, d];
    assert FirstRule(st, t, 4) == st;
    assert FirstRule(st, t, 3) == Rule(st, d.suffix, d.rep, st);
    assert FirstRule(st, t, 2) == Rule(st, c.suffix, c.rep, FirstRule(st, t, 3));
    assert FirstRule(st, t, 1) == Rule(st, b.suffix, b.rep, FirstRule(st, t, 2));
  }

  /** The step 5 tests of a table of one, two or four suffixes, written out in the order the
      stemmer tries them. */
  lemma FindFirstOne(st: State, a: string)
    requires WellFormed(st) && 0 < |a|
    ensures FindFirst(st, [a], 0) == Find(st, a, Found(false, st))
  {
    assert FindFirst(st, [a], 1) == Found(false, st);
  }

  lemma FindFirstTwo(st: State, a: string, b: string)
    requires WellFormed(st) && 0 < |a| && 0 < |b|
    ensures FindFirst(st, [a, b], 0) == Find(st, a, Find(st, b, Found(false, st)))
  {
    var t := [a, b];
    assert FindFirst(st, t, 2) == Found(false, st);
    assert FindFirst(st, t, 1) == Find(st, b, Found(false, st));
  }

  lemma FindFirstFour(st: State, a: string, b: string, c: string, d: string)
    requires WellFormed(st) && 0 < |a| && 0 < |b| && 0 < |c| && 0 < |d|
    ensures FindFirst(st, [a, b, c, d], 0)
      == Find(st, a, Find(st, b, Find(st, c, Find(st, d, Found(false, st)))))
  {
    var t := [a, b, c, d];
    assert FindFirst(st, t, 4) == Found(false, st);
    assert FindFirst(st, t, 3) == Find(st, d, Found(false, st));
    assert FindFirst(st, t, 2) == Find(st, c, FindFirst(st, t, 3));
    assert FindFirst(st, t, 1) == Find(st, b, FindFirst(st, t, 2));
  }

  /** The suffix tests of step 5 find the same suffix whatever `j` held before them. */
  lemma {:induction false} FindFirstAligns(x: State, y: State, suffixes: seq<string>, from: nat)
    requires WellFormed(x) && SameWord(x, y)
    requires forall i :: 0 <= i < |suffixes| ==> 0 < |suffixes[i]|
    ensures SameFound(FindFirst(x, suffixes, from), FindFirst(y, suffixes, from))
    decreases |suffixes| - from
  {
    if from < |suffixes| {
      FindFirstAligns(x, y, suffixes, from + 1);
      FindAligns(x, y, suffixes[from], FindFirst(x, suffixes, from + 1), FindFirst(y, suffixes, from + 1));
    }
  }

  lemma IonOrOuAligns(x: State, y: State)
    requires WellFormed(x) && 1 <= x.k && SameWord(x, y)
    ensures SameFound(IonOrOu(x), IonOrOu(y))
  {
    MatchAligns(x, y, "ion");
    FindAligns(x, y, "ou", Found(false, Match(x, "ion")), Found(false, Match(y, "ion")));
  }

  lemma ContextSuffixAligns(x: State, y: State)
    requires WellFormed(x) && 1 <= x.k && SameWord(x, y)
    ensures SameFound(ContextSuffix(x), ContextSuffix(y))
  {
    var c := x.buf[x.k - 1];
    if c == 'o' {
      IonOrOuAligns(x, y);
    } else {
      FindFirstAligns(x, y, Step5Suffixes(c), 0);
    }
  }

  lemma Step5IgnoresBoundary(x: State, y: State)
    requires WellFormed(x) && 0 <= x.k && SameWord(x, y)
    ensures SameWord(Step5(x), Step5(y))
  {
    if x.k > 0 {
      ContextSuffixAligns(x, y);
    }
  }

  /** Step 6 begins with `j := k`, so its result does not depend on `j` at all. */
  lemma Step6IgnoresBoundary(x: State, y: State)
    requires WellFormed(x) && 0 <= x.k && SameWord(x, y)
    ensures Step6(x) == Step6(y)
  {
    assert x.(j := x.k) == y.(j := y.k);
  }

  /** The match boundary left over from an earlier word never reaches the stem: `stem()`
      yields the same result whatever `j` held when it was called. */
  lemma {:induction false} StemIgnoresStaleBoundary(w: seq<char>, j0: int)
    ensures StemFrom(w, j0) == Stem(w)
  {
    if |w| - 1 > 1 {
      var x, y := State(w, |w| - 1, j0), State(w, |w| - 1, 0);
      Step1IgnoresBoundary(x, y);
      var x1, y1 := Step1(x), Step1(y);
      Step2IgnoresBoundary(x1, y1);
      var x2, y2 := Step2(x1), Step2(y1);
      Step3IgnoresBoundary(x2, y2);
      var x3, y3 := Step3(x2), Step3(y2);
      Step4IgnoresBoundary(x3, y3);
      var x4, y4 := Step4(x3), Step4(y3);
      Step5IgnoresBoundary(x4, y4);
      var x5, y5 := Step5(x4), Step5(y4);
      Step6IgnoresBoundary(x5, y5);
    }
  }

  /** A word of more than two characters has as its stem what the seven steps leave in
      front of the end cursor, whatever boundary they start from. */
  lemma StemIsStepsPrefix(w: seq<char>, j0: int, st: State)
    requires |w| > 2 && st == Steps(State(w, |w| - 1, j0))
    ensures Stem(w) == st.buf[..st.k + 1]
  {
    StemIgnoresStaleBoundary(w, j0);
  }

  /** The last test of step 7 removes `ing` even when no vowel precedes it. */
  lemma Step7StripsBareIng(st: State)
    requires WellFormed(st) && Ends(st, "ing") && !HasVowel(st.buf, st.k - 3)
    ensures Step7(st) == State(st.buf, st.k - 3, st.k - 3)
  {
    var e1 := Match(st, "ing");
    assert !Ends(st, "ed");
    assert Step7(st) == Step7Rest(e1);
    Step7RestAfterG(e1);
    Step7LastOnIng(e1);
  }

  /** Neither `es` nor `s` ends a word that ends with `g`. */
  lemma Step7RestAfterG(st: State)
    requires WellFormed(st) && 0 <= st.k && st.buf[st.k] == 'g'
    ensures Step7Rest(st) == Step7Last(st)
  {
    assert !Ends(st, "es") && !Ends(st, "s");
  }

  /** Of the last tests of step 7, only `ing` matches a word ending with `ing`. */
  lemma Step7LastOnIng(st: State)
    requires WellFormed(st) && Ends(st, "ing")
    ensures Step7Last(st) == State(st.buf, st.k - 3, st.k - 3)
  {
    assert !Ends(st, "ational") && !Ends(st, "tional");
  }

  /** In step 5, `ion` is removed only after `s` or `t`. */
  lemma Step5IonOnlyAfterSOrT(st: State)
    requires WellFormed(st) && 0 <= st.k && Ends(st, "ion") && Step5(st).k != st.k
    ensures st.buf[st.k - 3] == 's' || st.buf[st.k - 3] == 't'
  {
    Step5MovesToBoundary(st);
    var t := st.buf[st.k - 2 .. st.k + 1];
    assert t == "ion";
    assert t[1] == 'o';
    IonMatchedAfterSOrT(st);
  }

  lemma IonMatchedAfterSOrT(st: State)
    requires WellFormed(st) && 1 <= st.k && Ends(st, "ion") && st.buf[st.k - 1] == 'o'
    requires ContextSuffix(st).matched
    ensures st.buf[st.k - 3] == 's' || st.buf[st.k - 3] == 't'
  {
    assert ContextSuffix(st) == IonOrOu(st);
    assert st.buf[st.k] == 'n';
    assert !Ends(st, "ou");
  }

  /** The suffixes that step 5 removes, as Porter's algorithm lists them. */
  const ContextSuffixes: set<string> := {"al", "ance", "ence", "er", "ic", "able", "ible", "ant",
    "ement", "ment", "ent", "ion", "ou", "ism", "ate", "iti", "ous", "ive", "ize"}

  /** When the tests found a suffix, it is one of the list and `j` lies just before it. */
  predicate Listed(st: State, f: Found)
    requires WellFormed(st)
  {
    f.matched ==> -1 <= f.st.j < st.k && st.buf[f.st.j + 1 .. st.k + 1] in ContextSuffixes
  }

  /** A suffix found by the tests `suffixes[from..]` is one of them, and `j` lies just
      before it. */
  lemma {:induction false} FindFirstListed(st: State, suffixes: seq<string>, from: nat)
    requires WellFormed(st) && forall i :: 0 <= i < |suffixes| ==> 0 < |suffixes[i]|
    ensures var f := FindFirst(st, suffixes, from);
      f.matched ==> exists i :: from <= i < |suffixes| && st.buf[f.st.j + 1 .. st.k + 1] == suffixes[i]
    decreases |suffixes| - from
  {
    if from < |suffixes| {
      FindFirstListed(st, suffixes, from + 1);
      if Ends(st, suffixes[from]) {
        assert st.buf[FindFirst(st, suffixes, from).st.j + 1 .. st.k + 1] == suffixes[from];
      }
    }
  }

  /** Every suffix of the step 5 table is one of Porter's list. */
  lemma Step5SuffixesListed(c: char)
    ensures forall i :: 0 <= i < |Step5Suffixes(c)| ==> Step5Suffixes(c)[i] in ContextSuffixes
  {
  }

  lemma IonOrOuListed(st: State)
    requires WellFormed(st) && 1 <= st.k
    ensures Listed(st, IonOrOu(st))
  {
    var e := Match(st, "ion");
    if Ends(st, "ion") && e.j >= 0 && (st.buf[e.j] == 's' || st.buf[e.j] == 't') {
      assert IonOrOu(st) == Found(true, e);
      assert "ion" in ContextSuffixes;
    } else {
      assert IonOrOu(st) == Find(st, "ou", Found(false, e));
      assert "ou" in ContextSuffixes;
    }
  }

  /** Whatever the tests of step 5 find is one of the listed suffixes. */
  lemma ContextSuffixListed(st: State)
    requires WellFormed(st) && 1 <= st.k
    ensures Listed(st, ContextSuffix(st))
  {
    var c := st.buf[st.k - 1];
    if c == 'o' {
      IonOrOuListed(st);
    } else {
      FindFirstListed(st, Step5Suffixes(c), 0);
      Step5SuffixesListed(c);
    }
  }

  /** Step 5 moves `k` back only over one of the listed suffixes, and only when m of the
      stem that remains is greater than 1. */
  lemma Step5RemovesListedSuffix(st: State)
    requires WellFormed(st) && 0 <= st.k && Step5(st).k != st.k
    ensures var r := Step5(st); st.buf[r.k + 1 .. st.k + 1] in ContextSuffixes && Measure(st.buf, r.k) > 1
  {
    Step5MovesToBoundary(st);
    ContextSuffixListed(st);
  }

  /** When the tests of step 5 find nothing, step 5 leaves the state as the tests left it. */
  lemma Step5Unmatched(st: State)
    requires WellFormed(st) && 1 <= st.k && !ContextSuffix(st).matched
    ensures Step5(st) == ContextSuffix(st).st
  {
  }

  /** When step 5 moves `k`, it moves it to the boundary left by a suffix test that matched. */
  lemma Step5MovesToBoundary(st: State)
    requires WellFormed(st) && 0 <= st.k && Step5(st).k != st.k
    ensures 1 <= st.k && ContextSuffix(st).matched && Step5(st).k == ContextSuffix(st).st.j
  {
  }
}
