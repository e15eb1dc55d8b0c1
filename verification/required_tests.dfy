/**
 The required rules of `requiredTests.go`: minimum length, maximum length
 and the ban on three equal consecutive bytes. A password must pass every
 one of them to be strong.
 */
module RequiredTests {
  import opened Types
  import Decimal

  const MinLengthPrefix := "the password must be at least "
  const MinLengthSuffix := " characters long"
  const MaxLengthPrefix := "the password must be fewer than "
  const MaxLengthSuffix := " characters"
  const RepeatMessage := "the password may not contain sequences of three or more repeated characters"

  /** `minimumLength`: fails, naming the bound, when the password has fewer bytes than `minLength`. */
  function MinimumLength(config: PasswordConfig, password: Password): (o: Outcome)
  {
    if |password| < config.minLength
    then Fail(MinLengthPrefix + Decimal.FormatInt(config.minLength) + MinLengthSuffix)
    else Pass
  }

  /** `maximumLength`: fails, naming the bound, when the password has more bytes than `maxLength`. */
  function MaximumLength(config: PasswordConfig, password: Password): (o: Outcome)
  {
    if |password| > config.maxLength
    then Fail(MaxLengthPrefix + Decimal.FormatInt(config.maxLength) + MaxLengthSuffix)
    else Pass
  }

  /** The message `m` is `prefix`, then the `%d` rendering of `bound` (canonical, so the only one), then `suffix`. */
  predicate NamesBound(m: string, prefix: string, bound: int, suffix: string) {
    && |m| > |prefix| + |suffix|
    && m[..|prefix|] == prefix
    && m[|m| - |suffix|..] == suffix
    && Decimal.IsCanonical(m[|prefix|..|m| - |suffix|])
    && Decimal.ParseInt(m[|prefix|..|m| - |suffix|]) == bound
  }

  /**
   The minimum-length rule fails exactly on passwords shorter than
   `minLength`, and its message states that bound in a form that reads back
   to the configured value.
   */
  lemma MinimumLengthVerdict(config: PasswordConfig, password: Password)
    ensures MinimumLength(config, password).Fail? <==> |password| < config.minLength
    ensures MinimumLength(config, password).Fail? ==>
              NamesBound(MinimumLength(config, password).message, MinLengthPrefix, config.minLength, MinLengthSuffix)
  {
    var digits := Decimal.FormatInt(config.minLength);
    var m := MinLengthPrefix + digits + MinLengthSuffix;
    assert m[|MinLengthPrefix|..|m| - |MinLengthSuffix|] == digits;
    assert m[..|MinLengthPrefix|] == MinLengthPrefix;
    assert m[|m| - |MinLengthSuffix|..] == MinLengthSuffix;
    Decimal.FormatIntRoundTrip(config.minLength);
  }

  /**
   The maximum-length rule fails exactly on passwords longer than
   `maxLength`, and its message states that bound.
   */
  lemma MaximumLengthVerdict(config: PasswordConfig, password: Password)
    ensures MaximumLength(config, password).Fail? <==> |password| > config.maxLength
    ensures MaximumLength(config, password).Fail? ==>
              NamesBound(MaximumLength(config, password).message, MaxLengthPrefix, config.maxLength, MaxLengthSuffix)
  {
    var digits := Decimal.FormatInt(config.maxLength);
    var m := MaxLengthPrefix + digits + MaxLengthSuffix;
    assert m[|MaxLengthPrefix|..|m| - |MaxLengthSuffix|] == digits;
    assert m[..|MaxLengthPrefix|] == MaxLengthPrefix;
    assert m[|m| - |MaxLengthSuffix|..] == MaxLengthSuffix;
    Decimal.FormatIntRoundTrip(config.maxLength);
  }

  /** The length rules look at the byte length of the password and at nothing else in it. */
  lemma LengthRulesSeeOnlyLength(config: PasswordConfig, p: Password, q: Password)
    requires |p| == |q|
    ensures MinimumLength(config, p) == MinimumLength(config, q)
    ensures MaximumLength(config, p) == MaximumLength(config, q)
  {
  }

  /**
   With `minLength > maxLength` (a configuration the code does not reject)
   every password fails at least one of the two length rules.
   */
  lemma InconsistentBoundsRejectAll(config: PasswordConfig, password: Password)
    requires config.minLength > config.maxLength
    ensures MinimumLength(config, password).Fail? || MaximumLength(config, password).Fail?
  {
  }

  // ---------------------------------------------------------------------
  // Repetition

  /** Bytes `i`, `i + 1` and `i + 2` of the password are equal. */
  predicate TripleAt(password: Password, i: int)
    requires 0 <= i && i + 2 < |password|
  {
    password[i] == password[i + 1] == password[i + 2]
  }

  /** The functional specification: three equal consecutive bytes occur somewhere. */
  predicate HasTripleRun(password: Password) {
    exists i :: 0 <= i && i + 2 < |password| && TripleAt(password, i)
  }

  /** Length of the run of equal bytes that ends at index `j`. */
  function RunEndingAt(password: Password, j: int): (n: nat)
    requires 0 <= j < |password|
    ensures 1 <= n <= j + 1
  {
    if j > 0 && password[j] == password[j - 1] then RunEndingAt(password, j - 1) + 1 else 1
  }

  /** The functional specification of the rule: fail with the repetition message exactly when a triple occurs. */
  function NoRepeatOutcome(password: Password): Outcome {
    if HasTripleRun(password) then Fail(RepeatMessage) else Pass
  }

  /**
   The run-length view and the triple view agree: some run of equal bytes is
   three or more long exactly when three equal consecutive bytes occur.
   */
  lemma RunOfThreeIffTriple(password: Password)
    ensures HasTripleRun(password) <==> exists j :: 0 <= j < |password| && RunEndingAt(password, j) >= 3
  {
    if HasTripleRun(password) {
      var i :| 0 <= i && i + 2 < |password| && TripleAt(password, i);
      assert RunEndingAt(password, i + 1) >= 2;
      assert RunEndingAt(password, i + 2) >= 3;
    } else {
      forall j | 0 <= j < |password|
        ensures RunEndingAt(password, j) < 3
      {
        if RunEndingAt(password, j) >= 3 {
          assert RunEndingAt(password, j - 1) >= 2;
          assert TripleAt(password, j - 2);
        }
      }
    }
  }

  /**
   `preventRepeating`, step for step: `temp` counts the run of equal bytes
   ending just before index `i`, `ans` the longest finished run. The rule
   fails exactly when three equal consecutive bytes occur; a password of
   fewer than three bytes always passes. The invariant `ans <= 2` is what
   makes the check after the loop dead: every failure leaves from inside
   the loop.
   */
  method PreventRepeating(password: Password) returns (o: Outcome)
    ensures o.Fail? <==> HasTripleRun(password)
    ensures o.Fail? ==> o.message == RepeatMessage
    ensures |password| < 3 ==> o == Pass
    ensures o == NoRepeatOutcome(password)
  {
    var ans, temp := 1, 1;
    var i := 1;
    while i < |password|
      invariant 1 <= i
      invariant i <= |password| || |password| == 0
      invariant 1 <= temp <= 2
      invariant 1 <= ans <= 2
      invariant i <= |password| ==> temp == RunEndingAt(password, i - 1)
      invariant forall j :: 0 <= j && j + 2 < i && j + 2 < |password| ==> !TripleAt(password, j)
    {
      if password[i] == password[i - 1] {
        temp := temp + 1;
        if temp > 2 {
          assert TripleAt(password, i - 2);
          return Fail(RepeatMessage);
        }
      } else {
        ans := if ans >= temp then ans else temp;
        temp := 1;
      }
      i := i + 1;
    }
    ans := if ans >= temp then ans else temp;
    // Every run of three already returned from inside the loop.
    assert ans <= 2;
    o := if ans > 2 then Fail(RepeatMessage) else Pass;
  }
}
