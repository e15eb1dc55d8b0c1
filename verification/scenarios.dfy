/**
 Worked evaluations under the default policy, for concrete ASCII
 passwords.
 */
module Scenarios {
  import opened Types
  import opened PasswordTest
  import RequiredTests
  import OptionalTests
  import DefaultPolicy
  import Samples

  /** "Tr0ub4dor&3" has no three equal consecutive bytes. */
  lemma TroubadourNoTriple()
    ensures !RequiredTests.HasTripleRun(Samples.Troubadour)
  {
    assert !Samples.TripleScan(Samples.Troubadour);
    Samples.TripleScanDecides(Samples.Troubadour);
  }

  /** "Tr0ub4dor&3" has a byte of each class: 'T', 'r', '0' and '&'. */
  lemma TroubadourClasses()
    ensures DefaultPolicy.ClassesPresent(Samples.Troubadour) == 4
  {
    var p := Samples.Troubadour;
    assert p[0] == 84 && p[1] == 114 && p[2] == 48 && p[9] == 38;
    OptionalTests.ContainsClassSpec(OptionalTests.Lowercase, p);
    OptionalTests.ContainsClassSpec(OptionalTests.Uppercase, p);
    OptionalTests.ContainsClassSpec(OptionalTests.Digit, p);
    OptionalTests.ContainsClassSpec(OptionalTests.NonAlphanumeric, p);
    assert OptionalTests.InClass(OptionalTests.Uppercase, p[0]);
    assert OptionalTests.InClass(OptionalTests.Lowercase, p[1]);
    assert OptionalTests.InClass(OptionalTests.Digit, p[2]);
    assert OptionalTests.InClass(OptionalTests.NonAlphanumeric, p[9]);
  }

  /** "Tr0ub4dor&3": 11 bytes with all four classes, so strong without being a passphrase. */
  lemma TroubadourIsStrong()
    ensures var r := Evaluate(DefaultConfig, DefaultTests, Samples.Troubadour);
            r.strong && r.optionalTestsPassed == 4 && !r.isPassphrase
  {
    TroubadourNoTriple();
    TroubadourClasses();
    DefaultPolicy.DefaultAllClassesIsStrong(Samples.Troubadour);
  }

  /** "aaa1234567" breaks the repetition rule; "aa1234567B" keeps it. */
  lemma RepetitionExamples()
    ensures RequiredTests.NoRepeatOutcome(Samples.TripleA) == Fail(RequiredTests.RepeatMessage)
    ensures RequiredTests.NoRepeatOutcome(Samples.DoubleA) == Pass
  {
    Samples.TripleScanDecides(Samples.TripleA);
    Samples.TripleScanDecides(Samples.DoubleA);
  }

  /** Twenty lowercase letters, no triple, one class. */
  lemma LowercaseShape()
    ensures !RequiredTests.HasTripleRun(Samples.TwentyLowercase)
    ensures DefaultPolicy.ClassesPresent(Samples.TwentyLowercase) == 1
  {
    var p := Samples.TwentyLowercase;
    assert forall i :: 0 <= i < |p| ==> p[i] == 97 + i;
    assert !RequiredTests.TripleAt(p, 0);
    OptionalTests.ContainsClassSpec(OptionalTests.Lowercase, p);
    OptionalTests.ContainsClassSpec(OptionalTests.Uppercase, p);
    OptionalTests.ContainsClassSpec(OptionalTests.Digit, p);
    OptionalTests.ContainsClassSpec(OptionalTests.NonAlphanumeric, p);
    assert OptionalTests.InClass(OptionalTests.Lowercase, p[0]);
  }

  /** Twenty lowercase letters: only one class present, yet a strong passphrase. */
  lemma LowercasePassphrase()
    ensures var r := Evaluate(DefaultConfig, DefaultTests, Samples.TwentyLowercase);
            r.strong && r.isPassphrase && r.optionalTestsPassed == 1
  {
    LowercaseShape();
    DefaultPolicy.DefaultPassphraseReport(Samples.TwentyLowercase);
  }

  /** "Abcdefgh1234" has three of the four classes. */
  lemma NoSpecialShape()
    ensures DefaultPolicy.ClassesPresent(Samples.NoSpecial) == 3
  {
    var p := Samples.NoSpecial;
    assert |p| == 12 && p[0] == 65;
    assert forall i :: 1 <= i < 8 ==> p[i] == 97 + i;
    assert forall i :: 8 <= i < 12 ==> p[i] == 41 + i;
    OptionalTests.ContainsClassSpec(OptionalTests.Lowercase, p);
    OptionalTests.ContainsClassSpec(OptionalTests.Uppercase, p);
    OptionalTests.ContainsClassSpec(OptionalTests.Digit, p);
    OptionalTests.ContainsClassSpec(OptionalTests.NonAlphanumeric, p);
    assert OptionalTests.InClass(OptionalTests.Uppercase, p[0]);
    assert OptionalTests.InClass(OptionalTests.Lowercase, p[1]);
    assert OptionalTests.InClass(OptionalTests.Digit, p[8]);
  }

  /** Twelve bytes with no special character: three of four optional passes is too few. */
  lemma ThreeOfFourIsWeak()
    ensures var r := Evaluate(DefaultConfig, DefaultTests, Samples.NoSpecial);
            !r.strong && !r.isPassphrase && r.optionalTestsPassed == 3
  {
    NoSpecialShape();
    DefaultPolicy.DefaultMissingClassIsWeak(Samples.NoSpecial);
  }
}
