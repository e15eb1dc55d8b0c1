# OWASP password strength test: a Dafny model

This project models the evaluation engine of the Go package `owasp`, a port
of the OWASP password strength test. An `Owasp` value holds three things:

- a `PasswordConfig`: whether passphrases are allowed, the minimum and
  maximum length, the minimum passphrase length, and how many optional tests
  must pass;
- a `TestConfig`: two ordered lists of test methods, the required tests and
  the optional tests;
- a `TestResult`, which the evaluation appends to.

`TestPassword` runs every required test and then every optional test. It
records each failure message and each failed or passed index; an optional
test's index is offset by the number of required tests. It then marks a
long enough password as a passphrase when passphrases are allowed. Finally
it clears `strong` when a non-passphrase passed too few optional tests. A
failing required test clears `strong` straight away.

The repository ships these tests:

- three required tests: minimum length, maximum length, and no three equal
  consecutive characters;
- four optional `atLeastOneOf` tests, one each for the classes `[a-z]`,
  `[A-Z]`, `[0-9]` and `[^A-Za-z0-9]`.

Layout:

- `types.dfy` (`Types`): bytes, passwords as byte sequences (Go's `len` and
  indexing work on bytes), `PasswordConfig`, and `Outcome`, which stands for
  the `error` a test method returns (`nil` or a message).
- `decimal.dfy` (`Decimal`): Go's `%d` rendering of an `int`, with a parser
  as its partner.
- `required_tests.dfy` (`RequiredTests`): `minimumLength`, `maximumLength`,
  and `preventRepeating`. `preventRepeating` is modelled as a method with
  the source's loop and proved equal to a functional specification.
- `optional_tests.dfy` (`OptionalTests`): `atLeastOneOf` over the four
  character classes. A pattern the regexp package cannot compile has its
  own variant.
- `password_test.dfy` (`PasswordTest`):
  - the rule sets, `TestResult`, `Owasp` and the default configuration;
  - `runTests`, modelled as two left folds over the rule lists starting
    from whatever result the `Owasp` already holds;
  - `TestPassword` up to, but not including, the JSON encoding.
- `report.dfy` (`Report`): reference views of a list of outcomes, built
  independently of the evaluator: the failure messages in order, the failing
  or passing positions, and the pass count.
- `properties.dfy` (`Properties`): what one evaluation reports, for any
  configuration and any rule lists, proved against those reference views.
- `default_policy.dfy` (`DefaultPolicy`): the verdict under the shipped
  defaults as a closed formula in the byte length, the repetition check and
  the classes present.
- `samples.dfy` (`Samples`) and `scenarios.dfy` (`Scenarios`): concrete
  passwords and their default verdicts.

Go's `%d` is modelled exactly. A test method receives the whole `Owasp`
but reads only its `PasswordConfig`, so `PasswordTest.Eval` takes only the
configuration. Go's untyped `params` list is replaced by the `Rule`
variants, each of which carries its own parameters.

Points where the code's behaviour is easy to misread:

- `atLeastOneOf` never returns a regexp compile error. `regexp.Match`
  reports no match when the pattern does not compile, so the `!match` branch
  returns the ordinary "must contain at least one" message first. The branch
  that would return the error (optionalTests.go:14-16) cannot be reached
  (`OptionalTests.AtLeastOneOf`).
- `TestPassword` does not reset the result. It appends to the `TestResult`
  the `Owasp` already holds, so calling it twice on one `Owasp` duplicates
  every entry (`Properties.ReusedOwaspAccumulates`).
- Lengths and repetitions are counted in bytes, not characters.
- `preventRepeating` checks `ans > 2` after its loop (requiredTests.go:38-41),
  but that check never fails. Every run of three already returned from
  inside the loop, and the loop keeps `ans <= 2` (`RequiredTests.PreventRepeating`).

The package's own comments and its code disagree in one place.
passwordTest.go:80-81 calls a passphrase a password whose length "exceeds"
`MinPhraseLength`, but line 149 tests `>=`. The model follows line 149: a
password of exactly `MinPhraseLength` bytes is a passphrase.

## Model

| member | source | states |
|---|---|---|
| Decimal.FormatInt | requiredTests.go:11 | The `%d` text of the bound is canonical: an optional minus sign, then digits with no leading zero, and no "-0". The sign appears exactly for negative values. |
| Decimal.FormatIntCanonical | requiredTests.go:11 | Every canonical decimal string is the rendering of the integer it denotes. With the round trip, the rendering is exactly Go's `%d` and no other string. |
| Decimal.NatToDecimal | requiredTests.go:11 | A non-negative bound renders as at least one digit, with no leading zero. |
| Decimal.FormatIntRoundTrip | requiredTests.go:11 | Reading the rendered bound back gives the configured integer, whatever its sign. |
| Decimal.FormatIntInjective | requiredTests.go:19 | Two bounds with the same rendering are equal, so a message identifies its bound. |
| RequiredTests.MinimumLengthVerdict | requiredTests.go:9-14 | `minimumLength` fails exactly when the byte length is below `MinLength`; the failure message is "the password must be at least N characters long", where N is canonical decimal and reads back to `MinLength`. |
| RequiredTests.MaximumLengthVerdict | requiredTests.go:17-22 | `maximumLength` fails exactly when the byte length exceeds `MaxLength`; the failure message is "the password must be fewer than N characters", where N is canonical decimal and reads back to `MaxLength`. |
| RequiredTests.LengthRulesSeeOnlyLength | requiredTests.go:9-22 | Two passwords of the same byte length get the same length verdicts and messages. |
| RequiredTests.InconsistentBoundsRejectAll | requiredTests.go:9-22 | With `MinLength > MaxLength`, which nothing rejects, every password fails one of the two length tests. |
| RequiredTests.RunEndingAt | requiredTests.go:26-36 | The run of equal bytes ending at index j is between 1 and j + 1 long. |
| RequiredTests.RunOfThreeIffTriple | requiredTests.go:26-41 | Some run of equal bytes reaches length three exactly when three equal consecutive bytes occur. |
| RequiredTests.PreventRepeating | requiredTests.go:25-43 | The loop fails exactly when three equal consecutive bytes occur, and then only with the repetition message; a password of fewer than three bytes passes; the result equals the functional rule the pipeline uses. |
| OptionalTests.ContainsClassSpec | optionalTests.go:11 | The byte scan finds a match exactly when some byte of the password lies in the class. |
| OptionalTests.AtLeastOneOf | optionalTests.go:9-19 | `atLeastOneOf` passes exactly when the pattern compiles and some byte is in its class; every failure, including an uncompilable pattern, is "the password must contain at least one " followed by the description. |
| OptionalTests.DescriptionOnlyShapesMessage | optionalTests.go:10-13 | The description never changes pass or fail. |
| OptionalTests.EmptyPasswordFailsEveryPattern | optionalTests.go:11-13 | The empty password fails every optional test with that test's message. |
| PasswordTest.DefaultOptionalSpelling | passwordTest.go:87-110 | The four default optional rules are class patterns whose texts are `[a-z]`, `[A-Z]`, `[0-9]` and `[^A-Za-z0-9]`, in that order. Their descriptions are "lowercase letter", "uppercase letter", "number" and "special character". |
| OptionalTests.ClassesPartitionBytes | passwordTest.go:89-108 | Every byte lies in one of the four default classes, and the three positive classes are pairwise disjoint. |
| OptionalTests.NonEmptyMatchesSomeClass | passwordTest.go:89-108 | A non-empty password passes at least one of the four class tests. |
| PasswordTest.RuleOutcomesAt | passwordTest.go:116-117 | Outcome k of a tier is what rule k's test method returns on the password. |
| Properties.RunRequiredSummary | passwordTest.go:116-126 | The required loop appends, to whatever result it starts from, exactly the failing messages (to `Errors` and `RequiredTestErrors`), the failing indices, and the passing indices, in order; it leaves `Strong` set only if it was set and every required test passed. |
| Properties.RunOptionalSummary | passwordTest.go:128-138 | The optional loop appends the failing messages (to `Errors` and `OptionalTestErrors`), the failing and passing indices offset by the number of required tests, and adds the number of passes to `OptionalTestsPassed`. |
| Properties.OptionalRulesNeverClearStrong | passwordTest.go:112-139 | After `runTests`, `Strong` depends only on its old value and the required tests, whatever the optional tests are. |
| Properties.TestPasswordSummary | passwordTest.go:142-158 | On any `Owasp`, `TestPassword` appends both tiers' reports to the stored result. It sets `IsPassphrase` if passphrases are allowed and the password has at least `MinPhraseLength` bytes. It leaves `Strong` set exactly when it was set, every required test passed, and the password is a passphrase or passed enough optional tests. |
| Properties.EvaluateClosedForm | passwordTest.go:142-158 | From the fresh result of `DefaultPasswordConfig`, every field of the report has a closed form in the two tiers' outcomes. |
| Properties.OutcomeAtTiers | passwordTest.go:116-133 | Putting the two tiers side by side gives the outcome of every rule by its tier-qualified index. |
| Properties.EveryRuleLandsOnce | passwordTest.go:122-136 | Each rule index appears in `FailedTests` exactly when its rule failed, and in `PassedTests` exactly when it passed. No other index appears. Both lists increase, and together they have one entry per rule. |
| Properties.TiersNeverCollide | passwordTest.go:122-136 | The first `len(RequiredTestErrors)` failed indices and the first passed indices belong to required rules, below their count; every later entry belongs to an optional rule, in its offset range. |
| Properties.ErrorsMatchFailedTests | passwordTest.go:120-133 | `Errors` is the required messages followed by the optional ones, one per failed index; the j-th message is the failure of the rule at the j-th failed index. |
| Properties.OptionalPassCount | passwordTest.go:131-135 | `OptionalTestsPassed` lies between 0 and the number of optional tests, and together with `OptionalTestErrors` it accounts for every optional test. |
| Properties.OptionalPassesInPassedTests | passwordTest.go:135-136 | `OptionalTestsPassed` equals the number of optional-tier indices in `PassedTests`. |
| Properties.Verdict | passwordTest.go:142-158 | `IsPassphrase` holds exactly when passphrases are allowed and the password is long enough. The password is strong exactly when every required test passes (equivalently, `RequiredTestErrors` is empty) and it is a passphrase or passed at least `MinOptionalTestsToPass` optional tests. |
| Properties.ReusedOwaspAccumulates | passwordTest.go:112-158 | Testing the same password again on an already used `Owasp` doubles `Errors`, `FailedTests` and `PassedTests` and the pass count, so a failed index then appears twice. |
| Properties.ReusedOwaspSameVerdict | passwordTest.go:148-158 | That second call leaves `IsPassphrase` and `Strong` as they were. |
| Report.IndicesBounds | passwordTest.go:122-136 | The recorded positions of one tier increase and lie inside the tier's offset range. |
| Report.IndicesMembers | passwordTest.go:122-136 | A position is recorded exactly when its outcome is of the recorded kind. |
| Report.FailuresAlign | passwordTest.go:120-122 | The j-th failure message belongs to the outcome at the j-th failing position. |
| Report.FirstFailureLeads | passwordTest.go:116-122 | When the first test fails, its message and its index 0 come first. |
| Report.AllPassIffNoFailures | passwordTest.go:118-121 | There are no failure messages exactly when every outcome passes. |
| Report.IndicesPartition | passwordTest.go:118-125 | Each outcome is recorded once, as a failure or as a pass. |
| Report.TwoTiersMembers | passwordTest.go:122-133 | With the second tier offset by the first tier's length, the joined positions hold g exactly when outcome g of the joined list is of the recorded kind. |
| Report.TwoTiersBounds | passwordTest.go:122-133 | The joined positions increase and stay inside the joined list. |
| DefaultPolicy.RequiredRulesPass | passwordTest.go:70-76 | The three default required tests all pass exactly when the byte length is within the bounds and no triple occurs. |
| DefaultPolicy.DefaultOptionalCount | passwordTest.go:87-110 | Under the defaults, `OptionalTestsPassed` is the number of the four classes that occur in the password. |
| DefaultPolicy.DefaultVerdict | passwordTest.go:26-50 | Under the defaults, `IsPassphrase` means at least 20 bytes. A password is strong exactly when it has 10 to 128 bytes, no triple, and either at least 20 bytes or all four classes. |
| DefaultPolicy.DefaultPassphraseIsStrong | passwordTest.go:148-158 | A password of at least 20 bytes that passes the default required tests is a strong passphrase, whatever the optional tests say. |
| DefaultPolicy.DefaultAllClassesIsStrong | passwordTest.go:155-158 | A password within the bounds, with no triple and all four classes, is strong with four optional passes. |
| DefaultPolicy.DefaultPassphraseReport | passwordTest.go:148-158 | A passphrase within the bounds with no triple is strong, and its optional count is still the number of classes present. |
| DefaultPolicy.DefaultMissingClassIsWeak | passwordTest.go:155-158 | A password under 20 bytes that lacks some class is not strong. |
| DefaultPolicy.DefaultShortPasswordIsWeak | requiredTests.go:10-11 | Under the defaults, a password under 10 bytes is weak; its first error is "the password must be at least 10 characters long" and its first failed index is 0. |
| Samples.TripleScanDecides | requiredTests.go:25-43 | A direct left-to-right search for three equal consecutive bytes agrees with the repetition rule's specification. |
| Scenarios.TroubadourIsStrong | passwordTest.go:26-50 | "Tr0ub4dor&3" (11 bytes, all four classes) is strong, with four optional passes, and is not a passphrase. |
| Scenarios.RepetitionExamples | requiredTests.go:27-32 | "aaa1234567" fails the repetition test with its message, and "aa1234567B" passes it. |
| Scenarios.LowercasePassphrase | passwordTest.go:148-158 | Twenty lowercase letters make a strong passphrase although only one optional test passes. |
| Scenarios.ThreeOfFourIsWeak | passwordTest.go:155-158 | "Abcdefgh1234" passes three of the four optional tests and is not strong. |

## Left out

- The JSON encoding that ends `TestPassword` (`json.Marshal` and its byte slice and error) is not modelled; the model stops at the final `TestResult`.
- The `log.Println` call in `atLeastOneOf` is output only, and that branch is unreachable anyway.
- The general regular-expression engine is not modelled. A pattern is one of the four ASCII classes the repository uses, or a text that does not compile. Any other pattern a caller might configure is not covered.
- `math.Max` on `float64` in `preventRepeating` is modelled as an integer maximum; the values are small counters, so the conversion is exact.
- Go's `int` is 64 bits wide; the model's integers are unbounded. Lengths and counters in the code stay far below the width, and configured bounds are rendered as given.
- Function pointers and `[]interface{}` parameters are replaced by the `Rule` datatype and its dispatch `PasswordTest.Eval`. Test methods not among the shipped kinds are not modelled.
- The pipeline evaluates the repetition rule through its functional specification `RequiredTests.NoRepeatOutcome`, because a Dafny function cannot call a method; `RequiredTests.PreventRepeating` is proved equal to it.
- The source's panics are not modelled. A rule whose `params` has fewer than two entries panics in `atLeastOneOf` (optionalTests.go:10), and a nil `testMethod` panics at passwordTest.go:117 or 129. The `Rule` datatype always carries its parameters and a test, so it cannot represent either case.
- Mutation through the `*Owasp` pointer is modelled by returning the updated `Owasp` value. Concurrent use of one `Owasp` is not modelled.
