/**
 The optional rule of `optionalTests.go`: "the password contains at least
 one byte matching a pattern". The repository only ever passes the four
 ASCII classes `[a-z]`, `[A-Z]`, `[0-9]` and `[^A-Za-z0-9]`, so a pattern is
 one of those classes or a text the regexp package refuses to compile.

 Matching a class against the bytes is exact for Go strings: every byte of a
 multi-byte UTF-8 sequence is at least 0x80, and so is every byte of invalid
 UTF-8, so an ASCII class matches some rune exactly when it matches some
 byte, and every non-ASCII rune lies in the negated class.
 */
module OptionalTests {
  import opened Types

  datatype CharClass = Lowercase | Uppercase | Digit | NonAlphanumeric

  /** The `params[0]` of an `atLeastOneOf` rule. */
  datatype Pattern = ClassPattern(cls: CharClass) | Uncompilable(text: string)

  /** The regular-expression text of each class, as the default rule set spells it. */
  function PatternText(cls: CharClass): string {
    match cls
    case Lowercase => "[a-z]"
    case Uppercase => "[A-Z]"
    case Digit => "[0-9]"
    case NonAlphanumeric => "[^A-Za-z0-9]"
  }

  predicate IsLower(b: Byte) { 'a' as int <= b <= 'z' as int }
  predicate IsUpper(b: Byte) { 'A' as int <= b <= 'Z' as int }
  predicate IsDecimalDigit(b: Byte) { '0' as int <= b <= '9' as int }

  /** Membership of one byte in a class; the negated class takes every byte the other three leave. */
  predicate InClass(cls: CharClass, b: Byte) {
    match cls
    case Lowercase => IsLower(b)
    case Uppercase => IsUpper(b)
    case Digit => IsDecimalDigit(b)
    case NonAlphanumeric => !IsLower(b) && !IsUpper(b) && !IsDecimalDigit(b)
  }

  /** Scans the password for a byte of the class, first byte first. */
  function ContainsClass(cls: CharClass, password: Password): bool {
    if |password| == 0 then false
    else InClass(cls, password[0]) || ContainsClass(cls, password[1..])
  }

  /** The scan finds a byte of the class exactly when the password holds one. */
  lemma {:induction false} ContainsClassSpec(cls: CharClass, password: Password)
    ensures ContainsClass(cls, password) <==> exists i :: 0 <= i < |password| && InClass(cls, password[i])
    decreases |password|
  {
    if |password| > 0 {
      var rest := password[1..];
      ContainsClassSpec(cls, rest);
      assert forall i :: 1 <= i < |password| ==> password[i] == rest[i - 1];
      if ContainsClass(cls, rest) {
        var i :| 0 <= i < |rest| && InClass(cls, rest[i]);
        assert InClass(cls, password[i + 1]);
      }
    }
  }

  const AtLeastOnePrefix := "the password must contain at least one "

  /**
   `atLeastOneOf`: passes when the pattern matches some byte. When it does
   not match, and also when the pattern does not compile (the regexp package
   then reports no match), the result is the ordinary failure built from the
   description; the branch that would return the compile error is never taken.
   */
  function AtLeastOneOf(pattern: Pattern, description: string, password: Password): (o: Outcome)
    ensures o.Pass? <==> pattern.ClassPattern? && exists i :: 0 <= i < |password| && InClass(pattern.cls, password[i])
    ensures o.Fail? ==> o.message == AtLeastOnePrefix + description
  {
    var matched := pattern.ClassPattern? && (ContainsClassSpec(pattern.cls, password); ContainsClass(pattern.cls, password));
    if !matched then Fail(AtLeastOnePrefix + description) else Pass
  }

  /** The description shapes the message only: it never decides pass or fail. */
  lemma DescriptionOnlyShapesMessage(pattern: Pattern, description1: string, description2: string, password: Password)
    ensures AtLeastOneOf(pattern, description1, password).Pass? == AtLeastOneOf(pattern, description2, password).Pass?
  {
  }

  /** The empty password fails every pattern. */
  lemma EmptyPasswordFailsEveryPattern(pattern: Pattern, description: string)
    ensures AtLeastOneOf(pattern, description, []) == Fail(AtLeastOnePrefix + description)
  {
  }

  /** Every byte lies in exactly one of the four classes. */
  lemma ClassesPartitionBytes(b: Byte)
    ensures InClass(Lowercase, b) || InClass(Uppercase, b) || InClass(Digit, b) || InClass(NonAlphanumeric, b)
    ensures !(InClass(Lowercase, b) && InClass(Uppercase, b))
    ensures !(InClass(Lowercase, b) && InClass(Digit, b))
    ensures !(InClass(Uppercase, b) && InClass(Digit, b))
    ensures InClass(NonAlphanumeric, b) ==> !InClass(Lowercase, b) && !InClass(Uppercase, b) && !InClass(Digit, b)
  {
  }

  /** Hence a non-empty password always passes at least one of the four class rules. */
  lemma NonEmptyMatchesSomeClass(password: Password, description: string)
    requires |password| > 0
    ensures exists cls :: AtLeastOneOf(ClassPattern(cls), description, password).Pass?
  {
    ClassesPartitionBytes(password[0]);
    if InClass(Lowercase, password[0]) {
      assert AtLeastOneOf(ClassPattern(Lowercase), description, password).Pass?;
    } else if InClass(Uppercase, password[0]) {
      assert AtLeastOneOf(ClassPattern(Uppercase), description, password).Pass?;
    } else if InClass(Digit, password[0]) {
      assert AtLeastOneOf(ClassPattern(Digit), description, password).Pass?;
    } else {
      assert AtLeastOneOf(ClassPattern(NonAlphanumeric), description, password).Pass?;
    }
  }
}
