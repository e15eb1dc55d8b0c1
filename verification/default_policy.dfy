/**
 The policy the repository ships: `DefaultPasswordConfig` with its three
 required rules and four character-class rules. Under it the verdict has a
 closed form in the byte length, the repetition check and the classes
 present.
 */
module DefaultPolicy {
  import opened Types
  import opened Report
  import opened PasswordTest
  import opened OptionalTests
  import RequiredTests
  import Properties
  import Decimal

  /** The number of the four default classes that have some byte in the password. */
  function ClassesPresent(password: Password): nat {
    (if ContainsClass(Lowercase, password) then 1 else 0)
    + (if ContainsClass(Uppercase, password) then 1 else 0)
    + (if ContainsClass(Digit, password) then 1 else 0)
    + (if ContainsClass(NonAlphanumeric, password) then 1 else 0)
  }

  /** The three default required rules all pass exactly inside the length bounds and without a triple. */
  lemma RequiredRulesPass(config: PasswordConfig, password: Password)
    ensures AllPass(RuleOutcomes(config, DefaultRequiredTests(), password))
            <==> config.minLength <= |password| <= config.maxLength && !RequiredTests.HasTripleRun(password)
  {
    var outs := RuleOutcomes(config, DefaultRequiredTests(), password);
    RuleOutcomesAt(config, DefaultRequiredTests(), password);
    assert AllPass(outs) <==> outs[0].Pass? && outs[1].Pass? && outs[2].Pass?;
  }

  lemma PassCountSnoc(front: seq<Outcome>, o: Outcome)
    ensures PassCount(front + [o]) == PassCount(front) + (if o.Pass? then 1 else 0)
  {
    IndicesSnoc(front, o, 0, false);
  }

  /** Four outcomes pass as often as their passes add up to. */
  lemma PassCountFour(o0: Outcome, o1: Outcome, o2: Outcome, o3: Outcome)
    ensures PassCount([o0, o1, o2, o3])
            == (if o0.Pass? then 1 else 0) + (if o1.Pass? then 1 else 0)
               + (if o2.Pass? then 1 else 0) + (if o3.Pass? then 1 else 0)
  {
    PassCountSnoc([], o0);
    PassCountSnoc([o0], o1);
    PassCountSnoc([o0, o1], o2);
    PassCountSnoc([o0, o1, o2], o3);
    assert [] + [o0] == [o0];
    assert [o0] + [o1] == [o0, o1];
    assert [o0, o1] + [o2] == [o0, o1, o2];
    assert [o0, o1, o2] + [o3] == [o0, o1, o2, o3];
  }

  /** With the default rule set, `optionalTestsPassed` is the number of classes present. */
  lemma DefaultOptionalCount(password: Password)
    ensures Evaluate(DefaultConfig, DefaultTests, password).optionalTestsPassed == ClassesPresent(password)
  {
    var opt := RuleOutcomes(DefaultConfig, DefaultOptionalTests(), password);
    assert Evaluate(DefaultConfig, DefaultTests, password).optionalTestsPassed == PassCount(opt) by {
      Properties.EvaluateClosedForm(DefaultConfig, DefaultTests, password);
    }
    RuleOutcomesAt(DefaultConfig, DefaultOptionalTests(), password);
    assert opt == [opt[0], opt[1], opt[2], opt[3]];
    PassCountFour(opt[0], opt[1], opt[2], opt[3]);
  }

  /**
   The default verdict: strong exactly when the password has 10 to 128
   bytes, no three equal consecutive bytes, and is either a passphrase of at
   least 20 bytes or contains all four classes.
   */
  lemma DefaultVerdict(password: Password)
    ensures var r := Evaluate(DefaultConfig, DefaultTests, password);
            && r.isPassphrase == (|password| >= 20)
            && (r.strong <==>
                  && 10 <= |password| <= 128
                  && !RequiredTests.HasTripleRun(password)
                  && (|password| >= 20 || ClassesPresent(password) == 4))
  {
    Properties.EvaluateClosedForm(DefaultConfig, DefaultTests, password);
    RequiredRulesPass(DefaultConfig, password);
    DefaultOptionalCount(password);
  }

  /**
   A password of at least 20 bytes that passes the three default required
   rules is a strong passphrase whatever the optional rules say.
   */
  lemma DefaultPassphraseIsStrong(password: Password)
    requires |password| >= 20
    requires forall k :: 0 <= k < |DefaultRequiredTests()| ==> Eval(DefaultConfig, DefaultRequiredTests()[k], password).Pass?
    ensures Evaluate(DefaultConfig, DefaultTests, password).isPassphrase
    ensures Evaluate(DefaultConfig, DefaultTests, password).strong
  {
    Properties.Verdict(DefaultConfig, DefaultTests, password);
  }

  /**
   A non-passphrase of 10 to 19 bytes, or a passphrase up to 128 bytes,
   without a triple and with all four classes is strong, with four optional
   passes.
   */
  lemma DefaultAllClassesIsStrong(password: Password)
    requires 10 <= |password| <= 128 && !RequiredTests.HasTripleRun(password)
    requires ClassesPresent(password) == 4
    ensures var r := Evaluate(DefaultConfig, DefaultTests, password);
            && r.strong
            && r.optionalTestsPassed == 4
            && r.isPassphrase == (|password| >= 20)
  {
    DefaultVerdict(password);
    DefaultOptionalCount(password);
  }

  /**
   A passphrase inside the length bounds without a triple is strong; its
   optional pass count is still the number of classes present.
   */
  lemma DefaultPassphraseReport(password: Password)
    requires 20 <= |password| <= 128 && !RequiredTests.HasTripleRun(password)
    ensures var r := Evaluate(DefaultConfig, DefaultTests, password);
            && r.strong
            && r.isPassphrase
            && r.optionalTestsPassed == ClassesPresent(password)
  {
    DefaultVerdict(password);
    DefaultOptionalCount(password);
  }

  /** A password under 20 bytes missing some class is never strong. */
  lemma DefaultMissingClassIsWeak(password: Password)
    requires |password| < 20 && ClassesPresent(password) < 4
    ensures var r := Evaluate(DefaultConfig, DefaultTests, password);
            && !r.strong
            && !r.isPassphrase
            && r.optionalTestsPassed == ClassesPresent(password)
  {
    DefaultVerdict(password);
    DefaultOptionalCount(password);
  }

  /**
   Under the defaults a password shorter than 10 bytes is never strong, and
   the first error names the bound: "the password must be at least 10
   characters long".
   */
  lemma DefaultShortPasswordIsWeak(password: Password)
    requires |password| < 10
    ensures var r := Evaluate(DefaultConfig, DefaultTests, password);
            && !r.strong
            && |r.errors| > 0 && |r.failedTests| > 0
            && r.errors[0] == "the password must be at least 10 characters long"
            && r.failedTests[0] == 0
  {
    var req := RuleOutcomes(DefaultConfig, DefaultRequiredTests(), password);
    Properties.EvaluateClosedForm(DefaultConfig, DefaultTests, password);
    RequiredRulesPass(DefaultConfig, password);
    assert req[0] == RequiredTests.MinimumLength(DefaultConfig, password) by {
      RuleOutcomesAt(DefaultConfig, DefaultRequiredTests(), password);
    }
    assert Decimal.FormatInt(10) == "10";
    assert req[0].message == "the password must be at least 10 characters long";
    FirstFailureLeads(req);
  }
}
