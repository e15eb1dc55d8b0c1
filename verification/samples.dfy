/** The sample passwords of the worked evaluations, as bytes. */
module Samples {
  import opened Types
  import RequiredTests

  /** "Tr0ub4dor&3" */
  const Troubadour: Password := [84, 114, 48, 117, 98, 52, 100, 111, 114, 38, 51]
  /** "aaa1234567" */
  const TripleA: Password := [97, 97, 97, 49, 50, 51, 52, 53, 54, 55]
  /** "aa1234567B" */
  const DoubleA: Password := [97, 97, 49, 50, 51, 52, 53, 54, 55, 66]
  /** "abcdefghijklmnopqrst" */
  const TwentyLowercase: Password := seq(20, (i: int) requires 0 <= i < 20 => 97 + i)
  /**
   "Abcdefgh1234". This sample and `TwentyLowercase` are built from runs of
   consecutive codes, so that facts about all their bytes are arithmetic for
   the verifier.
   */
  const NoSpecial: Password :=
    [65]                                                // "A"
    + seq(7, (i: int) requires 0 <= i < 7 => 98 + i)    // "bcdefgh"
    + seq(4, (i: int) requires 0 <= i < 4 => 49 + i)    // "1234"

  /** A left-to-right search for three equal consecutive bytes. */
  function TripleScan(p: Password): bool {
    if |p| < 3 then false else (p[0] == p[1] == p[2]) || TripleScan(p[1..])
  }

  /** The search decides the repetition rule's specification. */
  lemma {:induction false} TripleScanDecides(p: Password)
    ensures TripleScan(p) == RequiredTests.HasTripleRun(p)
    decreases |p|
  {
    if |p| >= 3 {
      var rest := p[1..];
      TripleScanDecides(rest);
      if RequiredTests.HasTripleRun(rest) {
        var i :| 0 <= i && i + 2 < |rest| && RequiredTests.TripleAt(rest, i);
        assert RequiredTests.TripleAt(p, i + 1);
      }
      if RequiredTests.HasTripleRun(p) && !RequiredTests.TripleAt(p, 0) {
        var i :| 0 <= i && i + 2 < |p| && RequiredTests.TripleAt(p, i);
        assert RequiredTests.TripleAt(rest, i - 1);
      }
      if RequiredTests.TripleAt(p, 0) {
        assert RequiredTests.HasTripleRun(p);
      }
    }
  }
}
