/**
 Vocabulary shared by the rule modules and the evaluation pipeline:
 passwords as Go strings (bytes), the password configuration and the
 outcome of one test method.
 */
module Types {

  /** One byte of a Go string. */
  type Byte = b: int | 0 <= b < 256

  /**
   A password as Go holds it: a string is a sequence of bytes, `len` counts
   bytes and indexing yields bytes.
   */
  type Password = seq<Byte>

  /** The tunables of `PasswordConfig`. No relation between them is enforced. */
  datatype PasswordConfig = PasswordConfig(
    allowPassPhrases: bool,
    maxLength: int,
    minLength: int,
    minPhraseLength: int,
    minOptionalTestsToPass: int)

  /** What a test method returns: `nil`, or an error carrying its message. */
  datatype Outcome = Pass | Fail(message: string)
}
