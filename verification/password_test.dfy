/**
 The evaluation pipeline of `passwordTest.go`: rule sets, the result
 record, the default configuration, `runTests` and `TestPassword`.

 A Go `PasswordTest` is a function pointer with an untyped parameter list;
 here a rule is a variant of `Rule` holding its own parameters, and `Eval`
 is the dispatch. Every test method receives the whole `Owasp` value but
 reads only its `PasswordConfig`, so `Eval` takes just that.
 */
module PasswordTest {
  import opened Types
  import RequiredTests
  import OptionalTests
  import Report

  datatype Rule =
    | MinLength
    | MaxLength
    | NoRepeat
    | HasClass(pattern: OptionalTests.Pattern, description: string)

  datatype TestConfig = TestConfig(requiredTests: seq<Rule>, optionalTests: seq<Rule>)

  datatype TestResult = TestResult(
    errors: seq<string>,
    failedTests: seq<int>,
    passedTests: seq<int>,
    requiredTestErrors: seq<string>,
    optionalTestErrors: seq<string>,
    isPassphrase: bool,
    strong: bool,
    optionalTestsPassed: int)

  datatype Owasp = Owasp(passwordConfig: PasswordConfig, testConfig: TestConfig, testResult: TestResult)

  /** The result an `Owasp` starts with: nothing recorded, not a passphrase, provisionally strong. */
  const FreshResult := TestResult([], [], [], [], [], false, true, 0)

  const DefaultConfig := PasswordConfig(
    allowPassPhrases := true,
    maxLength := 128,
    minLength := 10,
    minPhraseLength := 20,
    minOptionalTestsToPass := 4)

  function DefaultRequiredTests(): seq<Rule> {
    [MinLength, MaxLength, NoRepeat]
  }

  function DefaultOptionalTests(): seq<Rule> {
    [ HasClass(OptionalTests.ClassPattern(OptionalTests.Lowercase), "lowercase letter"),
      HasClass(OptionalTests.ClassPattern(OptionalTests.Uppercase), "uppercase letter"),
      HasClass(OptionalTests.ClassPattern(OptionalTests.Digit), "number"),
      HasClass(OptionalTests.ClassPattern(OptionalTests.NonAlphanumeric), "special character") ]
  }

  /**
   The default optional rules carry, in order, the regular expressions and
   descriptions the repository passes as `params`.
   */
  lemma DefaultOptionalSpelling()
    ensures var rules := DefaultOptionalTests();
            && |rules| == 4
            && (forall k :: 0 <= k < |rules| ==> rules[k].HasClass? && rules[k].pattern.ClassPattern?)
            && [OptionalTests.PatternText(rules[0].pattern.cls), OptionalTests.PatternText(rules[1].pattern.cls),
                OptionalTests.PatternText(rules[2].pattern.cls), OptionalTests.PatternText(rules[3].pattern.cls)]
               == ["[a-z]", "[A-Z]", "[0-9]", "[^A-Za-z0-9]"]
            && [rules[0].description, rules[1].description, rules[2].description, rules[3].description]
               == ["lowercase letter", "uppercase letter", "number", "special character"]
  {
  }

  const DefaultTests := TestConfig(DefaultRequiredTests(), DefaultOptionalTests())

  function DefaultPasswordConfig(): Owasp {
    Owasp(DefaultConfig, DefaultTests, FreshResult)
  }

  /** Calls the rule's test method on the password. */
  function Eval(config: PasswordConfig, rule: Rule, password: Password): Outcome {
    match rule
    case MinLength => RequiredTests.MinimumLength(config, password)
    case MaxLength => RequiredTests.MaximumLength(config, password)
    case NoRepeat => RequiredTests.NoRepeatOutcome(password)
    case HasClass(pattern, description) => OptionalTests.AtLeastOneOf(pattern, description, password)
  }

  /** The outcome of every rule of a tier, in rule order. */
  function RuleOutcomes(config: PasswordConfig, rules: seq<Rule>, password: Password): (outs: seq<Outcome>)
    ensures |outs| == |rules|
    decreases |rules|
  {
    if |rules| == 0 then []
    else RuleOutcomes(config, rules[..|rules| - 1], password) + [Eval(config, rules[|rules| - 1], password)]
  }

  /** Outcome `k` of a tier is the outcome of its rule `k`. */
  lemma {:induction false} RuleOutcomesAt(config: PasswordConfig, rules: seq<Rule>, password: Password)
    ensures forall k :: 0 <= k < |rules| ==> RuleOutcomes(config, rules, password)[k] == Eval(config, rules[k], password)
    decreases |rules|
  {
    if |rules| > 0 {
      RuleOutcomesAt(config, rules[..|rules| - 1], password);
    }
  }

  /** Bookkeeping for the required rule at position `k`. */
  function RecordRequired(r: TestResult, k: int, o: Outcome): TestResult {
    match o
    case Fail(m) =>
      r.(strong := false,
         errors := r.errors + [m],
         requiredTestErrors := r.requiredTestErrors + [m],
         failedTests := r.failedTests + [k])
    case Pass => r.(passedTests := r.passedTests + [k])
  }

  /** Bookkeeping for the optional rule whose tier-qualified index is `index`. */
  function RecordOptional(r: TestResult, index: int, o: Outcome): TestResult {
    match o
    case Fail(m) =>
      r.(errors := r.errors + [m],
         optionalTestErrors := r.optionalTestErrors + [m],
         failedTests := r.failedTests + [index])
    case Pass =>
      r.(optionalTestsPassed := r.optionalTestsPassed + 1,
         passedTests := r.passedTests + [index])
  }

  /** The first loop of `runTests`: every required rule, in order, no short-circuit. */
  function RunRequired(config: PasswordConfig, rules: seq<Rule>, password: Password, r: TestResult): TestResult
    decreases |rules|
  {
    if |rules| == 0 then r
    else
      var k := |rules| - 1;
      RecordRequired(RunRequired(config, rules[..k], password, r), k, Eval(config, rules[k], password))
  }

  /** The second loop of `runTests`: every optional rule, its index shifted by `offset`. */
  function RunOptional(config: PasswordConfig, offset: int, rules: seq<Rule>, password: Password, r: TestResult): TestResult
    decreases |rules|
  {
    if |rules| == 0 then r
    else
      var k := |rules| - 1;
      RecordOptional(RunOptional(config, offset, rules[..k], password, r), offset + k, Eval(config, rules[k], password))
  }

  /** `runTests`: appends to the result already held by `owasp`. */
  function RunTests(owasp: Owasp, password: Password, requiredTests: seq<Rule>, optionalTests: seq<Rule>): Owasp {
    var config := owasp.passwordConfig;
    var afterRequired := RunRequired(config, requiredTests, password, owasp.testResult);
    owasp.(testResult := RunOptional(config, |requiredTests|, optionalTests, password, afterRequired))
  }

  /**
   `TestPassword` up to the serialisation of the result: run both tiers,
   mark a long enough password as a passphrase when passphrases are
   allowed, then clear `strong` if a non-passphrase passed too few optional
   rules.
   */
  function TestPassword(owasp: Owasp, password: Password): Owasp {
    var ran := RunTests(owasp, password, owasp.testConfig.requiredTests, owasp.testConfig.optionalTests);
    var config := ran.passwordConfig;
    var r := ran.testResult;
    var r1 := if config.allowPassPhrases && |password| >= config.minPhraseLength then r.(isPassphrase := true) else r;
    var r2 := if !r1.isPassphrase && r1.optionalTestsPassed < config.minOptionalTestsToPass then r1.(strong := false) else r1;
    ran.(testResult := r2)
  }

  /** One evaluation on an `Owasp` holding the fresh result. */
  function Evaluate(config: PasswordConfig, tests: TestConfig, password: Password): TestResult {
    TestPassword(Owasp(config, tests, FreshResult), password).testResult
  }
}
