/** Stems of particular words, worked out step by step. They show where step 7 makes this
    stemmer differ from Porter's published algorithm. */
module StemExamples {
  import opened Classifier
  import opened Rules
  import RuleProperties

  // ---------------------------------------------------------------- ing

  lemma IngStep1()
    ensures Step1(State("ing", 2, 0)) == State("ing", 2, -1)
  {
    var w := "ing";
    var x0 := State(w, 2, 0);
    assert Step1a(x0) == x0;
    assert w[0..3] == w;
    assert !Ends(x0, "eed") && !Ends(x0, "ed") && Ends(x0, "ing");
    assert !HasVowel(w, -1);
  }

  lemma IngSteps2To4()
    ensures var x := State("ing", 2, -1); Step4(Step3(Step2(x))) == x
  {
    var x := State("ing", 2, -1);
    assert Step2(x) == x;
    assert Step3Rules('n') == [] && Step4Rules('g') == [];
  }

  lemma IngStep5()
    ensures var x := State("ing", 2, -1); Step5(x) == x
  {
    var x := State("ing", 2, -1);
    RuleProperties.FindFirstFour(x, "ant", "ement", "ment", "ent");
    assert !Ends(x, "ant") && !Ends(x, "ement") && !Ends(x, "ment") && !Ends(x, "ent");
    assert ContextSuffix(x) == Found(false, x);
    RuleProperties.Step5Unmatched(x);
  }

  lemma IngSteps6And7()
    ensures Step7(Step6(State("ing", 2, -1))) == State("ing", -1, -1)
  {
    var x6 := State("ing", 2, 2);
    assert Step6(State("ing", 2, -1)) == x6;
    assert "ing"[0..3] == "ing";
    assert Ends(x6, "ing") && !HasVowel(x6.buf, -1);
    RuleProperties.Step7StripsBareIng(x6);
  }

  /** `ing` alone: step 1 keeps it because no vowel precedes it, and the last test of step 7
      then removes it, leaving the empty stem. */
  lemma StemOfIng()
    ensures Stem("ing") == []
  {
    IngStep1();
    IngSteps2To4();
    IngStep5();
    IngSteps6And7();
  }

  // ---------------------------------------------------------------- caresses

  /** `caresses`: step 1 turns `sses` into `ss`, giving `caress`. */
  lemma CaressesStep1()
    ensures Step1(State("caresses", 7, 0)) == State("caresses", 5, 3)
  {
    var w := "caresses";
    var x0 := State(w, 7, 0);
    assert w[4..8][0] == 's' && w[4..8][1] == 's' && w[4..8][2] == 'e' && w[4..8][3] == 's';
    assert Ends(x0, "sses");
    var x1 := State(w, 5, 3);
    assert Step1a(x0) == x1;
    assert !Ends(x1, "eed") && !Ends(x1, "ed") && !Ends(x1, "ing");
  }

  lemma CaressesSteps2And3()
    ensures var x := State("caresses", 5, 3); Step3(Step2(x)) == x
  {
    var x := State("caresses", 5, 3);
    assert Step2(x) == x;
    var a, b, c, d := Rewrite("alism", "al"), Rewrite("iveness", "ive"), Rewrite("fulness", "ful"),
      Rewrite("ousness", "ous");
    assert Step3Rules('s') == [a, b, c, d];
    RuleProperties.FirstRuleFour(x, a, b, c, d);
    assert !Ends(x, "alism") && !Ends(x, "iveness") && !Ends(x, "fulness") && !Ends(x, "ousness");
  }

  lemma CaressesStep4()
    ensures var x := State("caresses", 5, 3); Step4(x) == x
  {
    var w := "caresses";
    var x := State(w, 5, 3);
    assert w[2..6][0] == 'r';
    assert !Ends(x, "ness");
    var a := Rewrite("ness", "");
    assert Step4Rules('s') == [a];
    RuleProperties.FirstRuleOne(x, a);
  }

  lemma CaressesStep5Tests()
    ensures !Ends(State("caresses", 5, 3), "ism")
  {
    assert "caresses"[3..6][0] == 'e';
  }

  lemma CaressesStep5()
    ensures var x := State("caresses", 5, 3); Step5(x) == x
  {
    var x := State("caresses", 5, 3);
    CaressesContextSuffix();
    RuleProperties.Step5Unmatched(x);
  }

  lemma CaressesContextSuffix()
    ensures var x := State("caresses", 5, 3); ContextSuffix(x) == Found(false, x)
  {
    var x := State("caresses", 5, 3);
    RuleProperties.FindFirstOne(x, "ism");
    CaressesStep5Tests();
  }

  lemma CaressesStep6()
    ensures Step6(State("caresses", 5, 3)) == State("caresses", 5, 5)
  {
  }

  lemma CaressesStep7Tests()
    ensures var x := State("caresses", 5, 5);
      !Ends(x, "ing") && !Ends(x, "ed") && !Ends(x, "es") && Ends(x, "s")
  {
    var w := "caresses";
    assert w[4..6][0] == 's';
    assert w[5..6] == [w[5]];
  }

  /** `cares` has m = 2: `a` and `e` are each followed by a consonant. */
  lemma CaresMeasure()
    ensures Measure("caresses", 4) == 2
  {
    var w := "caresses";
    assert VowelConsonantAt(w, 2) && VowelConsonantAt(w, 4);
  }

  /** Step 7 drops the final `s` of `caress`, because m of `cares` is 2. */
  lemma CaressesStep7()
    ensures Step7(State("caresses", 5, 5)) == State("caresses", 4, 4)
  {
    CaressesStep7Tests();
    CaresMeasure();
  }

  /** Porter's algorithm stems `caresses` to `caress`; this stemmer gives `cares`. */
  lemma StemOfCaresses()
    ensures Stem("caresses") == "cares"
  {
    CaressesStep1();
    CaressesSteps2And3();
    CaressesStep4();
    CaressesStep5();
    CaressesStep6();
    CaressesStep7();
  }

  // ---------------------------------------------------------------- feed

  lemma FeedStep1Tests()
    ensures Ends(State("feed", 3, 0), "eed")
  {
    var w := "feed";
    assert w[1..4][0] == 'e' && w[1..4][1] == 'e' && w[1..4][2] == 'd';
  }

  lemma FeedStep1()
    ensures var x := State("feed", 3, 0); Step1(x) == x
  {
    var x := State("feed", 3, 0);
    assert Step1a(x) == x;
    FeedStep1Tests();
    assert Measure("feed", 0) == 0;
  }

  lemma FeedSteps2And3()
    ensures var x := State("feed", 3, 0); Step3(Step2(x)) == x
  {
    var x := State("feed", 3, 0);
    assert Step2(x) == x;
    assert !Ends(x, "izer");
    var a := Rewrite("izer", "ize");
    assert Step3Rules('e') == [a];
    RuleProperties.FirstRuleOne(x, a);
  }

  lemma FeedSteps4To6()
    ensures Step6(Step5(Step4(State("feed", 3, 0)))) == State("feed", 3, 3)
  {
    var x := State("feed", 3, 0);
    assert Step4(x) == x;
    FeedContextSuffix();
    RuleProperties.Step5Unmatched(x);
  }

  lemma FeedContextSuffix()
    ensures var x := State("feed", 3, 0); ContextSuffix(x) == Found(false, x)
  {
    var x := State("feed", 3, 0);
    RuleProperties.FindFirstOne(x, "er");
    assert !Ends(x, "er");
  }

  lemma FeedStep7()
    ensures Step7(State("feed", 3, 3)) == State("feed", 1, 1)
  {
    var w := "feed";
    var x6 := State(w, 3, 3);
    FeedStep7Tests();
    assert !IsConsonant(w, 1);
  }

  lemma FeedStep7Tests()
    ensures var x := State("feed", 3, 3); !Ends(x, "ing") && Ends(x, "ed")
  {
    var w := "feed";
    assert w[2..4][0] == 'e' && w[2..4][1] == 'd';
  }

  /** `feed`: step 1 keeps `eed` because m of `f` is 0, but step 7 then removes `ed`
      because `fe` contains a vowel. Porter's algorithm leaves `feed` unchanged. */
  lemma StemOfFeed()
    ensures Stem("feed") == "fe"
  {
    FeedStep1();
    FeedSteps2And3();
    FeedSteps4To6();
    FeedStep7();
  }

  // ---------------------------------------------------------------- sing

  lemma SingStep1Tests()
    ensures var x := State("sing", 3, 0);
      !Ends(x, "eed") && !Ends(x, "ed") && Ends(x, "ing") && !HasVowel(x.buf, 0)
  {
    var w := "sing";
    assert w[1..4][0] == 'i' && w[1..4][1] == 'n' && w[1..4][2] == 'g';
    assert IsConsonant(w, 0);
  }

  lemma SingStep1()
    ensures var x := State("sing", 3, 0); Step1(x) == x
  {
    var x := State("sing", 3, 0);
    assert Step1a(x) == x;
    SingStep1Tests();
  }

  lemma SingSteps2And3()
    ensures var x := State("sing", 3, 0); Step3(Step2(x)) == x
  {
    var x := State("sing", 3, 0);
    assert Step2(x) == x;
  }

  lemma SingStep5Tests()
    ensures var x := State("sing", 3, 0);
      !Ends(x, "ant") && !Ends(x, "ement") && !Ends(x, "ment") && !Ends(x, "ent")
  {
    var w := "sing";
    assert w[1..4][0] == 'i' && w[0..4][0] == 's';
  }

  lemma SingContextSuffix()
    ensures var x := State("sing", 3, 0); ContextSuffix(x) == Found(false, x)
  {
    var x := State("sing", 3, 0);
    RuleProperties.FindFirstFour(x, "ant", "ement", "ment", "ent");
    SingStep5Tests();
  }

  lemma SingSteps4To6()
    ensures Step6(Step5(Step4(State("sing", 3, 0)))) == State("sing", 3, 3)
  {
    var x := State("sing", 3, 0);
    assert Step4(x) == x;
    SingContextSuffix();
    RuleProperties.Step5Unmatched(x);
  }

  lemma SingStep7()
    ensures Step7(State("sing", 3, 3)) == State("sing", 0, 0)
  {
    var w := "sing";
    var x6 := State(w, 3, 3);
    assert w[1..4][0] == 'i' && w[1..4][1] == 'n' && w[1..4][2] == 'g';
    assert Ends(x6, "ing") && IsConsonant(w, 0);
    RuleProperties.Step7StripsBareIng(x6);
  }

  /** `sing`: step 1 keeps `ing` because `s` has no vowel, and the last test of step 7 then
      removes it anyway, so `sing` stems to `s`; Porter's algorithm leaves `sing` unchanged. */
  lemma StemOfSing()
    ensures Stem("sing") == "s"
  {
    SingStep1();
    SingSteps2And3();
    SingSteps4To6();
    SingStep7();
  }

  // ---------------------------------------------------------------- a doubled letter above U+007F

  /** `taññed` after `ed` is removed (`k == j == 3`): none of `at`, `bl`, `iz` ends the stem,
      the pair `ññ` is not a double consonant for the test as written (its two entries are
      different objects), and `taññ` is not cvc, so the code keeps `taññ`. Comparing the
      characters by value, the pair is a double consonant. */
  lemma DoubledEnyeAsWritten()
    ensures var e := State("taññed", 3, 3);
      !Ends(e, "at") && !Ends(e, "bl") && !Ends(e, "iz")
      && !BoxedDoubleConsonant(e.buf, 3) && !Cvc(e.buf, 3)
      && DoubleConsonant(e.buf, 3)
  {
    var w := "taññed";
    var e := State(w, 3, 3);
    assert w[2..4] == "ññ";
    assert IsConsonant(w, 2);
  }

  /** With the characters compared by value, step 1 takes `taññed` to `tañ`: it removes `ed`,
      since `a` is a vowel, and then one letter of the double consonant `ññ`. */
  lemma DoubledEnyeByValue()
    ensures var r := Step1(State("taññed", 5, 0)); r.k == 2 && r.buf[..r.k + 1] == "tañ"
  {
    assert "taññed"[..3] == "tañ";
    var w := "taññed";
    var x := State(w, 5, 0);
    assert Step1a(x) == x;
    assert w[3..6] == "ñed" && w[4..6] == "ed";
    assert !Ends(x, "eed") && Ends(x, "ed");
    var e := State(w, 3, 3);
    assert Match(x, "ed") == x.(j := 3);
    assert !IsConsonant(w, 1);
    assert HasVowel(w, 3);
    DoubledEnyeAsWritten();
    assert Step1b(x) == Step1bTidy(e);
    assert Step1bTidy(e) == e.(k := 2);
    assert Step1(x) == Step1b(x);
  }
}
