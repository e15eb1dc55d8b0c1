/**
 What one evaluation reports, proved against the reference views of
 `Report`: every rule lands exactly once in the passed or failed list, the
 two tiers occupy disjoint index ranges, the messages line up with the
 failed indices, the pass count is the number of optional passes, and the
 verdict is a closed formula.
 */
module Properties {
  import opened Types
  import opened Report
  import opened PasswordTest

  /** The required loop appends exactly the reference views of the required outcomes. */
  lemma {:induction false} RunRequiredSummary(config: PasswordConfig, rules: seq<Rule>, password: Password, r: TestResult)
    ensures var outs := RuleOutcomes(config, rules, password);
            RunRequired(config, rules, password, r) ==
              r.(errors := r.errors + Failures(outs),
                 requiredTestErrors := r.requiredTestErrors + Failures(outs),
                 failedTests := r.failedTests + Indices(outs, 0, true),
                 passedTests := r.passedTests + Indices(outs, 0, false),
                 strong := r.strong && AllPass(outs))
    decreases |rules|
  {
    if |rules| > 0 {
      var k := |rules| - 1;
      var front := RuleOutcomes(config, rules[..k], password);
      var o := Eval(config, rules[k], password);
      var outs := front + [o];
      assert outs[..k] == front;
      RunRequiredSummary(config, rules[..k], password, r);
      RequiredStep(RunRequired(config, rules[..k], password, r), r, front, o);
    }
  }

  /** One required iteration, on abstract accumulated views. */
  lemma RecordRequiredAppends(mid: TestResult, r: TestResult, fe: seq<string>, fi: seq<int>, pi: seq<int>, ap: bool, k: int, o: Outcome)
    requires mid == r.(errors := r.errors + fe,
                       requiredTestErrors := r.requiredTestErrors + fe,
                       failedTests := r.failedTests + fi,
                       passedTests := r.passedTests + pi,
                       strong := r.strong && ap)
    ensures RecordRequired(mid, k, o) ==
              r.(errors := r.errors + (fe + (if o.Fail? then [o.message] else [])),
                 requiredTestErrors := r.requiredTestErrors + (fe + (if o.Fail? then [o.message] else [])),
                 failedTests := r.failedTests + (fi + (if o.Fail? then [k] else [])),
                 passedTests := r.passedTests + (pi + (if o.Pass? then [k] else [])),
                 strong := r.strong && (ap && o.Pass?))
  {
  }

  lemma RequiredStep(mid: TestResult, r: TestResult, front: seq<Outcome>, o: Outcome)
    requires mid == r.(errors := r.errors + Failures(front),
                       requiredTestErrors := r.requiredTestErrors + Failures(front),
                       failedTests := r.failedTests + Indices(front, 0, true),
                       passedTests := r.passedTests + Indices(front, 0, false),
                       strong := r.strong && AllPass(front))
    ensures var outs := front + [o];
            RecordRequired(mid, |front|, o) ==
              r.(errors := r.errors + Failures(outs),
                 requiredTestErrors := r.requiredTestErrors + Failures(outs),
                 failedTests := r.failedTests + Indices(outs, 0, true),
                 passedTests := r.passedTests + Indices(outs, 0, false),
                 strong := r.strong && AllPass(outs))
  {
    FailuresSnoc(front, o);
    IndicesSnoc(front, o, 0, true);
    IndicesSnoc(front, o, 0, false);
    AllPassSnoc(front, o);
    RecordRequiredAppends(mid, r, Failures(front), Indices(front, 0, true), Indices(front, 0, false), AllPass(front), |front|, o);
  }

  /** The optional loop appends the reference views of the optional outcomes and never touches `strong`. */
  lemma {:induction false} RunOptionalSummary(config: PasswordConfig, offset: int, rules: seq<Rule>, password: Password, r: TestResult)
    ensures var outs := RuleOutcomes(config, rules, password);
            RunOptional(config, offset, rules, password, r) ==
              r.(errors := r.errors + Failures(outs),
                 optionalTestErrors := r.optionalTestErrors + Failures(outs),
                 failedTests := r.failedTests + Indices(outs, offset, true),
                 passedTests := r.passedTests + Indices(outs, offset, false),
                 optionalTestsPassed := r.optionalTestsPassed + PassCount(outs))
    decreases |rules|
  {
    if |rules| > 0 {
      var k := |rules| - 1;
      var front := RuleOutcomes(config, rules[..k], password);
      var o := Eval(config, rules[k], password);
      assert (front + [o])[..k] == front;
      RunOptionalSummary(config, offset, rules[..k], password, r);
      OptionalStep(RunOptional(config, offset, rules[..k], password, r), r, offset, front, o);
    }
  }

  /** One optional iteration, on abstract accumulated views. */
  lemma RecordOptionalAppends(mid: TestResult, r: TestResult, fe: seq<string>, fi: seq<int>, pi: seq<int>, pc: int, index: int, o: Outcome)
    requires mid == r.(errors := r.errors + fe,
                       optionalTestErrors := r.optionalTestErrors + fe,
                       failedTests := r.failedTests + fi,
                       passedTests := r.passedTests + pi,
                       optionalTestsPassed := r.optionalTestsPassed + pc)
    ensures RecordOptional(mid, index, o) ==
              r.(errors := r.errors + (fe + (if o.Fail? then [o.message] else [])),
                 optionalTestErrors := r.optionalTestErrors + (fe + (if o.Fail? then [o.message] else [])),
                 failedTests := r.failedTests + (fi + (if o.Fail? then [index] else [])),
                 passedTests := r.passedTests + (pi + (if o.Pass? then [index] else [])),
                 optionalTestsPassed := r.optionalTestsPassed + (pc + (if o.Pass? then 1 else 0)))
  {
  }

  lemma OptionalStep(mid: TestResult, r: TestResult, offset: int, front: seq<Outcome>, o: Outcome)
    requires mid == r.(errors := r.errors + Failures(front),
                       optionalTestErrors := r.optionalTestErrors + Failures(front),
                       failedTests := r.failedTests + Indices(front, offset, true),
                       passedTests := r.passedTests + Indices(front, offset, false),
                       optionalTestsPassed := r.optionalTestsPassed + PassCount(front))
    ensures var outs := front + [o];
            RecordOptional(mid, offset + |front|, o) ==
              r.(errors := r.errors + Failures(outs),
                 optionalTestErrors := r.optionalTestErrors + Failures(outs),
                 failedTests := r.failedTests + Indices(outs, offset, true),
                 passedTests := r.passedTests + Indices(outs, offset, false),
                 optionalTestsPassed := r.optionalTestsPassed + PassCount(outs))
  {
    FailuresSnoc(front, o);
    IndicesSnoc(front, o, offset, true);
    IndicesSnoc(front, o, offset, false);
    IndicesSnoc(front, o, 0, false);
    RecordOptionalAppends(mid, r, Failures(front), Indices(front, offset, true), Indices(front, offset, false),
                          PassCount(front), offset + |front|, o);
  }

  /**
   During `runTests` only a required failure clears `strong`: the flag after
   both loops is the incoming flag and "every required rule passed", whatever
   the optional rules are.
   */
  lemma OptionalRulesNeverClearStrong(owasp: Owasp, password: Password, requiredTests: seq<Rule>, optional1: seq<Rule>, optional2: seq<Rule>)
    ensures RunTests(owasp, password, requiredTests, optional1).testResult.strong
            == RunTests(owasp, password, requiredTests, optional2).testResult.strong
            == (owasp.testResult.strong && AllPass(RuleOutcomes(owasp.passwordConfig, requiredTests, password)))
  {
    var config := owasp.passwordConfig;
    var afterRequired := RunRequired(config, requiredTests, password, owasp.testResult);
    RunRequiredSummary(config, requiredTests, password, owasp.testResult);
    RunOptionalSummary(config, |requiredTests|, optional1, password, afterRequired);
    RunOptionalSummary(config, |requiredTests|, optional2, password, afterRequired);
  }

  /** Whether the exemption applies: passphrases allowed and the password long enough. */
  predicate PassphraseRule(config: PasswordConfig, password: Password) {
    config.allowPassPhrases && |password| >= config.minPhraseLength
  }

  /**
   `TestPassword` on any `Owasp`: what it appends to the stored result, and
   how it settles the passphrase flag and the verdict.
   */
  lemma TestPasswordSummary(owasp: Owasp, password: Password)
    ensures var config := owasp.passwordConfig;
            var tests := owasp.testConfig;
            var r0 := owasp.testResult;
            var req := RuleOutcomes(config, tests.requiredTests, password);
            var opt := RuleOutcomes(config, tests.optionalTests, password);
            var n := |tests.requiredTests|;
            var after := TestPassword(owasp, password);
            var r := after.testResult;
            && after.passwordConfig == config
            && after.testConfig == tests
            && r.errors == r0.errors + Failures(req) + Failures(opt)
            && r.requiredTestErrors == r0.requiredTestErrors + Failures(req)
            && r.optionalTestErrors == r0.optionalTestErrors + Failures(opt)
            && r.failedTests == r0.failedTests + Indices(req, 0, true) + Indices(opt, n, true)
            && r.passedTests == r0.passedTests + Indices(req, 0, false) + Indices(opt, n, false)
            && r.optionalTestsPassed == r0.optionalTestsPassed + PassCount(opt)
            && r.isPassphrase == (r0.isPassphrase || PassphraseRule(config, password))
            && r.strong == (r0.strong && AllPass(req) && (r.isPassphrase || r.optionalTestsPassed >= config.minOptionalTestsToPass))
  {
    var config := owasp.passwordConfig;
    var tests := owasp.testConfig;
    var afterRequired := RunRequired(config, tests.requiredTests, password, owasp.testResult);
    RunRequiredSummary(config, tests.requiredTests, password, owasp.testResult);
    RunOptionalSummary(config, |tests.requiredTests|, tests.optionalTests, password, afterRequired);
  }

  /**
   The report of one evaluation from the fresh result, field by field, in
   terms of the two tiers' outcomes.
   */
  lemma EvaluateClosedForm(config: PasswordConfig, tests: TestConfig, password: Password)
    ensures var r := Evaluate(config, tests, password);
            var req := RuleOutcomes(config, tests.requiredTests, password);
            var opt := RuleOutcomes(config, tests.optionalTests, password);
            var n := |tests.requiredTests|;
            && r.errors == Failures(req) + Failures(opt)
            && r.requiredTestErrors == Failures(req)
            && r.optionalTestErrors == Failures(opt)
            && r.failedTests == Indices(req, 0, true) + Indices(opt, n, true)
            && r.passedTests == Indices(req, 0, false) + Indices(opt, n, false)
            && r.optionalTestsPassed == PassCount(opt)
            && r.isPassphrase == PassphraseRule(config, password)
            && r.strong == (AllPass(req) && (r.isPassphrase || r.optionalTestsPassed >= config.minOptionalTestsToPass))
  {
    TestPasswordSummary(Owasp(config, tests, FreshResult), password);
  }

  /** The outcome of the rule whose tier-qualified index is `g`. */
  function OutcomeAt(config: PasswordConfig, tests: TestConfig, password: Password, g: int): Outcome
    requires 0 <= g < |tests.requiredTests| + |tests.optionalTests|
  {
    var n := |tests.requiredTests|;
    if g < n then Eval(config, tests.requiredTests[g], password)
    else Eval(config, tests.optionalTests[g - n], password)
  }

  /** The two tiers' outcomes side by side are the outcomes by tier-qualified index. */
  lemma OutcomeAtTiers(config: PasswordConfig, tests: TestConfig, password: Password)
    ensures var all := RuleOutcomes(config, tests.requiredTests, password) + RuleOutcomes(config, tests.optionalTests, password);
            && |all| == |tests.requiredTests| + |tests.optionalTests|
            && forall g :: 0 <= g < |all| ==> all[g] == OutcomeAt(config, tests, password, g)
  {
    RuleOutcomesAt(config, tests.requiredTests, password);
    RuleOutcomesAt(config, tests.optionalTests, password);
  }

  /**
   Every rule lands exactly once: index `g` is in `failedTests` exactly when
   its rule failed and in `passedTests` exactly when it passed; no other
   index appears; both lists increase; together they hold every index.
   */
  lemma EveryRuleLandsOnce(config: PasswordConfig, tests: TestConfig, password: Password)
    ensures var r := Evaluate(config, tests, password);
            var total := |tests.requiredTests| + |tests.optionalTests|;
            && (forall g :: 0 <= g < total ==> (g in r.failedTests <==> OutcomeAt(config, tests, password, g).Fail?))
            && (forall g :: 0 <= g < total ==> (g in r.passedTests <==> OutcomeAt(config, tests, password, g).Pass?))
            && (forall j :: 0 <= j < |r.failedTests| ==> 0 <= r.failedTests[j] < total)
            && (forall j :: 0 <= j < |r.passedTests| ==> 0 <= r.passedTests[j] < total)
            && StrictlyIncreasing(r.failedTests)
            && StrictlyIncreasing(r.passedTests)
            && |r.failedTests| + |r.passedTests| == total
  {
    var req := RuleOutcomes(config, tests.requiredTests, password);
    var opt := RuleOutcomes(config, tests.optionalTests, password);
    EvaluateClosedForm(config, tests, password);
    OutcomeAtTiers(config, tests, password);
    TwoTiersMembers(req, opt, true);
    TwoTiersMembers(req, opt, false);
    TwoTiersBounds(req, opt, true);
    TwoTiersBounds(req, opt, false);
    IndicesPartition(req, 0);
    IndicesPartition(opt, |req|);
  }

  /**
   The tiers never collide: the first `|requiredTestErrors|` failed indices
   and the first `n - |requiredTestErrors|` passed indices belong to required
   rules, below `n`; every later entry belongs to an optional rule, in
   `[n, n + m)`.
   */
  lemma TiersNeverCollide(config: PasswordConfig, tests: TestConfig, password: Password)
    ensures var r := Evaluate(config, tests, password);
            var n := |tests.requiredTests|;
            var m := |tests.optionalTests|;
            var q := |r.requiredTestErrors|;
            && 0 <= q <= n
            && q <= |r.failedTests| && n - q <= |r.passedTests|
            && (forall j :: 0 <= j < q ==> 0 <= r.failedTests[j] < n)
            && (forall j :: q <= j < |r.failedTests| ==> n <= r.failedTests[j] < n + m)
            && (forall j :: 0 <= j < n - q ==> 0 <= r.passedTests[j] < n)
            && (forall j :: n - q <= j < |r.passedTests| ==> n <= r.passedTests[j] < n + m)
  {
    var req := RuleOutcomes(config, tests.requiredTests, password);
    var opt := RuleOutcomes(config, tests.optionalTests, password);
    var n := |req|;
    EvaluateClosedForm(config, tests, password);
    FailuresAlign(req, 0);
    IndicesPartition(req, 0);
    IndicesBounds(req, 0, true);
    IndicesBounds(req, 0, false);
    IndicesBounds(opt, n, true);
    IndicesBounds(opt, n, false);
  }

  /**
   `errors` is the required messages followed by the optional ones, one per
   failed index, and the `j`-th message is the failure of the rule at the
   `j`-th failed index.
   */
  lemma ErrorsMatchFailedTests(config: PasswordConfig, tests: TestConfig, password: Password)
    ensures var r := Evaluate(config, tests, password);
            var total := |tests.requiredTests| + |tests.optionalTests|;
            && r.errors == r.requiredTestErrors + r.optionalTestErrors
            && |r.errors| == |r.failedTests|
            && (forall j :: 0 <= j < |r.failedTests| ==>
                  0 <= r.failedTests[j] < total
                  && OutcomeAt(config, tests, password, r.failedTests[j]) == Fail(r.errors[j]))
  {
    var r := Evaluate(config, tests, password);
    var req := RuleOutcomes(config, tests.requiredTests, password);
    var opt := RuleOutcomes(config, tests.optionalTests, password);
    var n := |req|;
    EvaluateClosedForm(config, tests, password);
    OutcomeAtTiers(config, tests, password);
    FailuresAlign(req, 0);
    FailuresAlign(opt, n);
    var all := req + opt;
    var q := |Failures(req)|;
    forall j | 0 <= j < |r.failedTests|
      ensures 0 <= r.failedTests[j] < n + |opt|
      ensures OutcomeAt(config, tests, password, r.failedTests[j]) == Fail(r.errors[j])
    {
      if j < q {
        assert r.failedTests[j] == Indices(req, 0, true)[j];
        assert r.errors[j] == Failures(req)[j];
        assert all[r.failedTests[j]] == req[r.failedTests[j]];
      } else {
        var g := Indices(opt, n, true)[j - q];
        assert r.failedTests[j] == g;
        assert r.errors[j] == Failures(opt)[j - q];
        assert all[g] == opt[g - n];
      }
    }
  }

  /**
   `optionalTestsPassed` counts the optional rules that passed: it is at most
   their number, and the ones that did not pass are exactly those with a
   message in `optionalTestErrors`.
   */
  lemma OptionalPassCount(config: PasswordConfig, tests: TestConfig, password: Password)
    ensures var r := Evaluate(config, tests, password);
            var m := |tests.optionalTests|;
            && 0 <= r.optionalTestsPassed <= m
            && m - r.optionalTestsPassed == |r.optionalTestErrors|
  {
    var opt := RuleOutcomes(config, tests.optionalTests, password);
    EvaluateClosedForm(config, tests, password);
    FailuresAlign(opt, |tests.requiredTests|);
    IndicesPartition(opt, |tests.requiredTests|);
    IndicesShift(opt, |tests.requiredTests|, false);
  }

  /** `optionalTestsPassed` is the number of optional-tier indices in `passedTests`. */
  lemma OptionalPassesInPassedTests(config: PasswordConfig, tests: TestConfig, password: Password)
    ensures var r := Evaluate(config, tests, password);
            var n := |tests.requiredTests|;
            r.optionalTestsPassed == |set g | n <= g < n + |tests.optionalTests| && g in r.passedTests|
  {
    var r := Evaluate(config, tests, password);
    var req := RuleOutcomes(config, tests.requiredTests, password);
    var opt := RuleOutcomes(config, tests.optionalTests, password);
    var n := |req|;
    var low, high := Indices(req, 0, false), Indices(opt, n, false);
    assert r.passedTests == low + high && r.optionalTestsPassed == PassCount(opt) by {
      EvaluateClosedForm(config, tests, password);
    }
    assert |high| == PassCount(opt) by {
      IndicesShift(opt, n, false);
    }
    IndicesBounds(req, 0, false);
    IndicesBounds(opt, n, false);
    CountInUpperRange(low, high, n, n + |opt|);
  }

  /**
   The verdict: the passphrase flag is "allowed and long enough", and the
   password is strong exactly when no required rule failed and it is a
   passphrase or passed at least `minOptionalTestsToPass` optional rules.
   */
  lemma Verdict(config: PasswordConfig, tests: TestConfig, password: Password)
    ensures var r := Evaluate(config, tests, password);
            && (r.isPassphrase <==> config.allowPassPhrases && |password| >= config.minPhraseLength)
            && (r.strong <==>
                  && (forall k :: 0 <= k < |tests.requiredTests| ==> Eval(config, tests.requiredTests[k], password).Pass?)
                  && (r.isPassphrase || r.optionalTestsPassed >= config.minOptionalTestsToPass))
            && (r.strong <==>
                  && |r.requiredTestErrors| == 0
                  && (r.isPassphrase || r.optionalTestsPassed >= config.minOptionalTestsToPass))
  {
    var req := RuleOutcomes(config, tests.requiredTests, password);
    EvaluateClosedForm(config, tests, password);
    RuleOutcomesAt(config, tests.requiredTests, password);
    AllPassIffNoFailures(req);
  }

  /**
   Reusing one `Owasp` for a second call of the same password appends to the
   stored result instead of starting afresh: every list doubles, the pass
   count doubles, and a failed index then appears twice.
   */
  lemma ReusedOwaspAccumulates(first: Owasp, password: Password)
    requires first.testResult == Evaluate(first.passwordConfig, first.testConfig, password)
    ensures var second := TestPassword(first, password).testResult;
            var r := first.testResult;
            && second.errors == r.errors + r.errors
            && second.failedTests == r.failedTests + r.failedTests
            && second.passedTests == r.passedTests + r.passedTests
            && second.optionalTestsPassed == 2 * r.optionalTestsPassed
            && (|r.failedTests| > 0 ==> !StrictlyIncreasing(second.failedTests))
  {
    var config, tests := first.passwordConfig, first.testConfig;
    var req := RuleOutcomes(config, tests.requiredTests, password);
    var opt := RuleOutcomes(config, tests.optionalTests, password);
    var n := |tests.requiredTests|;
    var r := first.testResult;
    var second := TestPassword(first, password).testResult;
    assert && r.errors == Failures(req) + Failures(opt)
           && r.failedTests == Indices(req, 0, true) + Indices(opt, n, true)
           && r.passedTests == Indices(req, 0, false) + Indices(opt, n, false)
           && r.optionalTestsPassed == PassCount(opt)
    by {
      EvaluateClosedForm(config, tests, password);
    }
    assert && second.errors == r.errors + Failures(req) + Failures(opt)
           && second.failedTests == r.failedTests + Indices(req, 0, true) + Indices(opt, n, true)
           && second.passedTests == r.passedTests + Indices(req, 0, false) + Indices(opt, n, false)
           && second.optionalTestsPassed == r.optionalTestsPassed + PassCount(opt)
    by {
      TestPasswordSummary(first, password);
    }
    assert r.errors + Failures(req) + Failures(opt) == r.errors + (Failures(req) + Failures(opt));
    assert r.failedTests + Indices(req, 0, true) + Indices(opt, n, true)
           == r.failedTests + (Indices(req, 0, true) + Indices(opt, n, true));
    assert r.passedTests + Indices(req, 0, false) + Indices(opt, n, false)
           == r.passedTests + (Indices(req, 0, false) + Indices(opt, n, false));
    if |r.failedTests| > 0 {
      assert second.failedTests[0] == second.failedTests[|r.failedTests|];
    }
  }

  /** The second call on a reused `Owasp` leaves the passphrase flag and the verdict as they were. */
  lemma ReusedOwaspSameVerdict(first: Owasp, password: Password)
    requires first.testResult == Evaluate(first.passwordConfig, first.testConfig, password)
    ensures var second := TestPassword(first, password).testResult;
            && second.isPassphrase == first.testResult.isPassphrase
            && second.strong == first.testResult.strong
  {
    var config, tests := first.passwordConfig, first.testConfig;
    var req := RuleOutcomes(config, tests.requiredTests, password);
    var opt := RuleOutcomes(config, tests.optionalTests, password);
    var r := first.testResult;
    var second := TestPassword(first, password).testResult;
    assert && r.optionalTestsPassed == PassCount(opt)
           && r.isPassphrase == PassphraseRule(config, password)
           && r.strong == (AllPass(req) && (r.isPassphrase || r.optionalTestsPassed >= config.minOptionalTestsToPass))
    by {
      EvaluateClosedForm(config, tests, password);
    }
    assert && second.optionalTestsPassed == r.optionalTestsPassed + PassCount(opt)
           && second.isPassphrase == (r.isPassphrase || PassphraseRule(config, password))
           && second.strong == (r.strong && AllPass(req) && (second.isPassphrase || second.optionalTestsPassed >= config.minOptionalTestsToPass))
    by {
      TestPasswordSummary(first, password);
    }
  }
}
