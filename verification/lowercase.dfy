/** Lowercase letters in, lowercase letters out: every character the steps write is taken from
    a lowercase replacement, so a word of lowercase letters has a stem of lowercase letters. */
module CaseProperties {
  import opened Classifier
  import opened Rules
  import RuleProperties

  /** Every character of `s` is one of `a` to `z`. */
  predicate Lower(s: seq<char>) {
    forall i :: 0 <= i < |s| ==> 'a' <= s[i] <= 'z'
  }

  /** Every replacement of a suffix list is lowercase. */
  predicate LowerReps(rules: seq<Rewrite>) {
    forall i :: 0 <= i < |rules| ==> Lower(rules[i].rep)
  }

  lemma SetToLower(st: State, s: string)
    requires -1 <= st.j && st.j + |s| < |st.buf|
    requires Lower(st.buf) && Lower(s)
    ensures Lower(SetTo(st, s).buf)
  {
    var r := SetTo(st, s);
    forall i | 0 <= i < |r.buf|
      ensures 'a' <= r.buf[i] <= 'z'
    {
      if st.j < i <= r.k {
        assert r.buf[i] == s[i - st.j - 1];
      } else {
        assert r.buf[i] == st.buf[i];
      }
    }
  }

  lemma RuleLower(st: State, suffix: string, rep: string, otherwise: State)
    requires WellFormed(st) && 0 < |suffix| && |rep| <= |suffix|
    requires Lower(st.buf) && Lower(rep) && Lower(otherwise.buf)
    ensures Lower(Rule(st, suffix, rep, otherwise).buf)
  {
    if Ends(st, suffix) {
      var e := Match(st, suffix);
      if Measure(e.buf, e.j) > 0 {
        SetToLower(e, rep);
      }
    }
  }

  lemma {:induction false} FirstRuleLower(st: State, rules: seq<Rewrite>, from: nat)
    requires WellFormed(st) && Shortening(rules) && LowerReps(rules) && Lower(st.buf)
    ensures Lower(FirstRule(st, rules, from).buf)
    decreases |rules| - from
  {
    if from < |rules| {
      FirstRuleLower(st, rules, from + 1);
      RuleLower(st, rules[from].suffix, rules[from].rep, FirstRule(st, rules, from + 1));
    }
  }

  lemma Step3RulesLower(c: char)
    ensures LowerReps(Step3Rules(c))
  {
    var reps := ["ate", "tion", "ence", "ance", "ize", "ble", "al", "ent", "e", "ous", "ive", "ful", "log"];
    assert forall r <- reps :: Lower(r);
    assert forall i :: 0 <= i < |Step3Rules(c)| ==> Step3Rules(c)[i].rep in reps;
  }

  lemma Step4RulesLower(c: char)
    ensures LowerReps(Step4Rules(c))
  {
  }

  lemma Step1Lower(st: State)
    requires WellFormed(st) && 2 <= st.k && Lower(st.buf)
    ensures Lower(Step1(st).buf)
  {
    var a := Step1a(st);
    if st.buf[st.k] == 's' && !Ends(st, "sses") && Ends(st, "ies") {
      SetToLower(Match(st, "ies"), "i");
      assert a == SetTo(Match(st, "ies"), "i");
    } else {
      assert a.buf == st.buf;
    }
    Step1bLower(a);
  }

  lemma Step1bLower(st: State)
    requires WellFormed(st) && 0 <= st.k && Lower(st.buf)
    ensures Lower(Step1b(st).buf)
  {
    if !Ends(st, "eed") {
      var e := if Ends(st, "ed") then Match(st, "ed") else Match(st, "ing");
      if (Ends(st, "ed") || Ends(st, "ing")) && HasVowel(e.buf, e.j) {
        Step1bTidyLower(e.(k := e.j));
      }
    }
  }

  lemma Step1bTidyLower(st: State)
    requires 0 <= st.k && st.k + 2 < |st.buf| && st.j == st.k && Lower(st.buf)
    ensures Lower(Step1bTidy(st).buf)
  {
    if Ends(st, "at") {
      SetToLower(Match(st, "at"), "ate");
    } else if Ends(st, "bl") {
      SetToLower(Match(st, "bl"), "ble");
    } else if Ends(st, "iz") {
      SetToLower(Match(st, "iz"), "ize");
    } else {
      SetToLower(st, "e");
    }
  }

  lemma Step2Lower(st: State)
    requires WellFormed(st) && Lower(st.buf)
    ensures Lower(Step2(st).buf)
  {
  }

  lemma Step3Lower(st: State)
    requires WellFormed(st) && 0 <= st.k && Lower(st.buf)
    ensures Lower(Step3(st).buf)
  {
    if st.k > 0 {
      Step3RulesLower(st.buf[st.k - 1]);
      FirstRuleLower(st, Step3Rules(st.buf[st.k - 1]), 0);
    }
  }

  lemma Step4Lower(st: State)
    requires WellFormed(st) && 0 <= st.k && Lower(st.buf)
    ensures Lower(Step4(st).buf)
  {
    Step4RulesLower(st.buf[st.k]);
    FirstRuleLower(st, Step4Rules(st.buf[st.k]), 0);
  }

  lemma Step7Lower(st: State)
    requires WellFormed(st) && Lower(st.buf)
    ensures Lower(Step7(st).buf)
  {
    var e1 := Match(st, "ing");
    if Ends(st, "ing") && HasVowel(e1.buf, e1.j) {
      SetToLower(e1, "e");
    } else {
      var e2 := Match(e1, "ed");
      if Ends(st, "ed") && HasVowel(e2.buf, e2.j) {
        SetToLower(e2, "");
      } else {
        Step7RestLower(e2);
      }
    }
  }

  lemma Step7RestLower(st: State)
    requires WellFormed(st) && Lower(st.buf)
    ensures Lower(Step7Rest(st).buf)
  {
    var e3 := Match(st, "es");
    if Ends(st, "es") && Measure(e3.buf, e3.j) > 0 {
      SetToLower(e3, "e");
    } else {
      var e4 := Match(e3, "s");
      if Ends(st, "s") && Measure(e4.buf, e4.j) > 1 {
        SetToLower(e4, "");
      } else {
        Step7LastLower(e4);
      }
    }
  }

  lemma Step7LastLower(st: State)
    requires WellFormed(st) && Lower(st.buf)
    ensures Lower(Step7Last(st).buf)
  {
    var last := if Ends(st, "ing") then SetTo(Match(st, "ing"), "") else st;
    if Ends(st, "ing") {
      SetToLower(Match(st, "ing"), "");
    }
    RuleLower(st, "tional", "tion", last);
    RuleLower(st, "ational", "ate", Rule(st, "tional", "tion", last));
  }

  /** The seven steps never write anything but lowercase letters. */
  lemma StepsLower(st: State)
    requires WellFormed(st) && 2 <= st.k && Lower(st.buf)
    ensures Lower(Steps(st).buf)
  {
    Step1Lower(st);
    var s1 := Step1(st);
    Step2Lower(s1);
    var s2 := Step2(s1);
    Step3Lower(s2);
    var s3 := Step3(s2);
    Step4Lower(s3);
    var s4 := Step4(s3);
    var s5 := Step5(s4);
    var s6 := Step6(s5);
    assert s6.buf == s4.buf;
    Step7Lower(s6);
  }

  /** A word of lowercase letters has a stem of lowercase letters. */
  lemma StemKeepsLowercase(w: seq<char>)
    requires Lower(w)
    ensures Lower(Stem(w))
  {
    if |w| > 2 {
      var x := State(w, |w| - 1, 0);
      var st := Steps(x);
      StepsLower(x);
      PrefixLower(st.buf, st.k + 1);
      RuleProperties.StemIsStepsPrefix(w, 0, st);
    }
  }

  lemma PrefixLower(s: seq<char>, n: int)
    requires 0 <= n <= |s| && Lower(s)
    ensures Lower(s[..n])
  {
  }
}
