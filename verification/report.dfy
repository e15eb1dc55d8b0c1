/**
 Reference views of a sequence of rule outcomes, independent of how the
 evaluator builds its report: the failure messages in order, the
 (offset) positions of the failing or passing rules, and the number of
 passes.
 */
module Report {
  import opened Types

  predicate StrictlyIncreasing(s: seq<int>) {
    forall i, j :: 0 <= i < j < |s| ==> s[i] < s[j]
  }

  /** Every outcome is a pass. */
  predicate AllPass(outs: seq<Outcome>) {
    forall k :: 0 <= k < |outs| ==> outs[k].Pass?
  }

  /** The messages of the failing outcomes, in order. */
  function Failures(outs: seq<Outcome>): seq<string> {
    if |outs| == 0 then []
    else Failures(outs[..|outs| - 1]) + (if outs[|outs| - 1].Fail? then [outs[|outs| - 1].message] else [])
  }

  /**
   The positions, shifted by `offset`, of the outcomes that fail (`failing`)
   or pass (`!failing`), in order.
   */
  function Indices(outs: seq<Outcome>, offset: int, failing: bool): seq<int> {
    if |outs| == 0 then []
    else
      var last := |outs| - 1;
      Indices(outs[..last], offset, failing) + (if outs[last].Fail? == failing then [offset + last] else [])
  }

  /** The positions are increasing and lie within `[offset, offset + |outs|)`. */
  lemma {:induction false} IndicesBounds(outs: seq<Outcome>, offset: int, failing: bool)
    ensures var idx := Indices(outs, offset, failing);
            && |idx| <= |outs|
            && (forall j :: 0 <= j < |idx| ==> offset <= idx[j] < offset + |outs|)
            && StrictlyIncreasing(idx)
    decreases |outs|
  {
    if |outs| > 0 {
      IndicesBounds(outs[..|outs| - 1], offset, failing);
    }
  }

  /** The positions hold `offset + k` exactly when outcome `k` is of the asked kind. */
  lemma {:induction false} IndicesMembers(outs: seq<Outcome>, offset: int, failing: bool)
    ensures forall k :: 0 <= k < |outs| ==> (offset + k in Indices(outs, offset, failing) <==> outs[k].Fail? == failing)
    decreases |outs|
  {
    if |outs| > 0 {
      var last := |outs| - 1;
      var front := outs[..last];
      IndicesMembers(front, offset, failing);
      IndicesBounds(front, offset, failing);
      assert forall k :: 0 <= k < last ==> front[k] == outs[k];
      assert offset + last !in Indices(front, offset, failing);
    }
  }

  /** The number of passing outcomes. */
  function PassCount(outs: seq<Outcome>): nat {
    |Indices(outs, 0, false)|
  }

  /** Every outcome is counted once: as a failure or as a pass. */
  lemma {:induction false} IndicesPartition(outs: seq<Outcome>, offset: int)
    ensures |Indices(outs, offset, true)| + |Indices(outs, offset, false)| == |outs|
    decreases |outs|
  {
    if |outs| > 0 {
      IndicesPartition(outs[..|outs| - 1], offset);
    }
  }

  /** The offset moves every position and leaves the count alone. */
  lemma {:induction false} IndicesShift(outs: seq<Outcome>, offset: int, failing: bool)
    ensures |Indices(outs, offset, failing)| == |Indices(outs, 0, failing)|
    ensures forall j :: 0 <= j < |Indices(outs, 0, failing)| ==>
              Indices(outs, offset, failing)[j] == offset + Indices(outs, 0, failing)[j]
    decreases |outs|
  {
    if |outs| > 0 {
      IndicesShift(outs[..|outs| - 1], offset, failing);
    }
  }

  /**
   The failure messages line up with the failing positions: the `j`-th
   message is the message of the outcome at the `j`-th failing position.
   */
  lemma {:induction false} FailuresAlign(outs: seq<Outcome>, offset: int)
    ensures |Failures(outs)| == |Indices(outs, offset, true)|
    ensures forall j :: 0 <= j < |Failures(outs)| ==>
              && offset <= Indices(outs, offset, true)[j] < offset + |outs|
              && outs[Indices(outs, offset, true)[j] - offset] == Fail(Failures(outs)[j])
    decreases |outs|
  {
    if |outs| > 0 {
      var last := |outs| - 1;
      FailuresAlign(outs[..last], offset);
      IndicesBounds(outs[..last], offset, true);
      assert forall k :: 0 <= k < last ==> outs[..last][k] == outs[k];
    }
  }

  /** When the first outcome fails, its message and position come first. */
  lemma FirstFailureLeads(outs: seq<Outcome>)
    requires |outs| > 0 && outs[0].Fail?
    ensures |Failures(outs)| > 0 && |Indices(outs, 0, true)| > 0
    ensures Indices(outs, 0, true)[0] == 0
    ensures Failures(outs)[0] == outs[0].message
  {
    var idx := Indices(outs, 0, true);
    IndicesMembers(outs, 0, true);
    IndicesBounds(outs, 0, true);
    FailuresAlign(outs, 0);
    assert 0 + 0 in idx;
    var j :| 0 <= j < |idx| && idx[j] == 0;
    assert idx[0] <= idx[j];
  }

  /** No failure message exactly when every outcome passes. */
  lemma AllPassIffNoFailures(outs: seq<Outcome>)
    ensures AllPass(outs) <==> |Failures(outs)| == 0
  {
    FailuresAlign(outs, 0);
    IndicesMembers(outs, 0, true);
    if !AllPass(outs) {
      var k :| 0 <= k < |outs| && outs[k].Fail?;
      assert 0 + k in Indices(outs, 0, true);
    }
  }

  /**
   The positions of two tiers side by side, the second shifted by the length
   of the first, hold `g` exactly when outcome `g` of the joined sequence is
   of the asked kind.
   */
  lemma TwoTiersMembers(first: seq<Outcome>, second: seq<Outcome>, failing: bool)
    ensures var all := first + second;
            var idx := Indices(first, 0, failing) + Indices(second, |first|, failing);
            forall g :: 0 <= g < |all| ==> (g in idx <==> all[g].Fail? == failing)
  {
    var n := |first|;
    var a := Indices(first, 0, failing);
    var b := Indices(second, n, failing);
    IndicesMembers(first, 0, failing);
    IndicesMembers(second, n, failing);
    IndicesBounds(first, 0, failing);
    IndicesBounds(second, n, failing);
    forall g | 0 <= g < n + |second|
      ensures g in a + b <==> (first + second)[g].Fail? == failing
    {
      if g < n {
        assert 0 + g == g;
        assert g !in b;
      } else {
        assert n + (g - n) == g;
        assert g !in a;
      }
    }
  }

  /** The joined positions lie within the joined sequence and increase. */
  lemma TwoTiersBounds(first: seq<Outcome>, second: seq<Outcome>, failing: bool)
    ensures var idx := Indices(first, 0, failing) + Indices(second, |first|, failing);
            && (forall j :: 0 <= j < |idx| ==> 0 <= idx[j] < |first| + |second|)
            && StrictlyIncreasing(idx)
  {
    var a := Indices(first, 0, failing);
    var b := Indices(second, |first|, failing);
    IndicesBounds(first, 0, failing);
    IndicesBounds(second, |first|, failing);
    forall i, j | 0 <= i < j < |a + b|
      ensures (a + b)[i] < (a + b)[j]
    {
      if j < |a| {
      } else if i >= |a| {
        assert (a + b)[i] == b[i - |a|] && (a + b)[j] == b[j - |a|];
      } else {
        assert (a + b)[i] == a[i] && (a + b)[j] == b[j - |a|];
      }
    }
  }

  /** An increasing sequence has as many distinct elements as entries. */
  lemma {:induction false} DistinctCard(s: seq<int>)
    requires StrictlyIncreasing(s)
    ensures |set j | 0 <= j < |s| :: s[j]| == |s|
    decreases |s|
  {
    if |s| > 0 {
      var front := s[..|s| - 1];
      DistinctCard(front);
      var a := set j | 0 <= j < |front| :: front[j];
      var b := set j | 0 <= j < |s| :: s[j];
      assert b == a + {s[|s| - 1]};
      assert s[|s| - 1] !in a;
    }
  }

  /**
   When every entry of `low` lies below `lo` and `high` increases within
   `[lo, hi)`, the values of `low + high` in `[lo, hi)` are exactly as many as
   `high` has entries.
   */
  lemma CountInUpperRange(low: seq<int>, high: seq<int>, lo: int, hi: int)
    requires forall j :: 0 <= j < |low| ==> low[j] < lo
    requires forall j :: 0 <= j < |high| ==> lo <= high[j] < hi
    requires StrictlyIncreasing(high)
    ensures |set g | lo <= g < hi && g in low + high| == |high|
  {
    var s := set g | lo <= g < hi && g in low + high;
    var elems := set j | 0 <= j < |high| :: high[j];
    forall g | g in elems ensures g in s {
      var j :| 0 <= j < |high| && high[j] == g;
      assert (low + high)[|low| + j] == g;
    }
    assert s == elems;
    DistinctCard(high);
  }

  // Appending one outcome, as each loop iteration of the evaluator does.

  lemma FailuresSnoc(front: seq<Outcome>, o: Outcome)
    ensures Failures(front + [o]) == Failures(front) + (if o.Fail? then [o.message] else [])
  {
    assert (front + [o])[..|front|] == front;
  }

  lemma IndicesSnoc(front: seq<Outcome>, o: Outcome, offset: int, failing: bool)
    ensures Indices(front + [o], offset, failing)
            == Indices(front, offset, failing) + (if o.Fail? == failing then [offset + |front|] else [])
  {
    assert (front + [o])[..|front|] == front;
  }

  lemma AllPassSnoc(front: seq<Outcome>, o: Outcome)
    ensures AllPass(front + [o]) == (AllPass(front) && o.Pass?)
  {
    assert forall k :: 0 <= k < |front| ==> (front + [o])[k] == front[k];
    assert (front + [o])[|front|] == o;
  }
}
