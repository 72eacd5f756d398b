/**
 * The pair scan of `calcForce` as a fold: every pair `(i, j)` with
 * `i < j` is visited once, row by row (`index1`), and within a row in
 * increasing `j`.  The fold is generic in the step applied to each pair,
 * so the facts about the order of the visits are proved once, apart from
 * what a step does in two or three dimensions.
 */
module Scans {
  import opened Bodies

  /** What the scan does with one pair; it may demand a well-formed state. */
  type Step<!V> = (Scan<V>, nat, nat) --> Scan<V>

  /** `step` applies to every framed state and keeps it framed. */
  ghost predicate Keeps<V(!new)>(step: Step<V>, s0: Scan<V>) {
    forall s, i: nat, j: nat :: Framed(s0, s) && i < j < |s.bodies| ==>
      step.requires(s, i, j) && Framed(s0, step(s, i, j))
  }

  /**
   * The scan state once every pair before `(i, j)` in loop order has been
   * resolved: all of rows `0..i-1`, and pairs `(i, i+1) .. (i, j-1)`.
   */
  function ScanTo<V(!new)>(step: Step<V>, s0: Scan<V>, i: nat, j: nat): Scan<V>
    requires Ready(s0) && Keeps(step, s0) && i < j <= |s0.bodies|
    decreases i, j, 0
  {
    if i + 1 < j then
      ScanToFrame(step, s0, i, j - 1);
      step(ScanTo(step, s0, i, j - 1), i, j - 1)
    else if i == 0 then s0
    else ScanTo(step, s0, i - 1, |s0.bodies|)
  }

  /** The scan keeps its shape from pair to pair. */
  lemma {:induction false} ScanToFrame<V(!new)>(step: Step<V>, s0: Scan<V>, i: nat, j: nat)
    requires Ready(s0) && Keeps(step, s0) && i < j <= |s0.bodies|
    ensures Framed(s0, ScanTo(step, s0, i, j))
    decreases i, j, 1
  {
    if i + 1 < j {
      ScanToFrame(step, s0, i, j - 1);
    } else if i > 0 {
      ScanToFrame(step, s0, i - 1, |s0.bodies|);
    } else {
      assert SameFrame(s0.bodies, s0.bodies);
    }
  }

  /** One more pair of row `i` is one more step. */
  lemma ScanToStep<V(!new)>(step: Step<V>, s0: Scan<V>, i: nat, j: nat)
    requires Ready(s0) && Keeps(step, s0) && i < j < |s0.bodies|
    ensures Framed(s0, ScanTo(step, s0, i, j)) && step.requires(ScanTo(step, s0, i, j), i, j)
    ensures ScanTo(step, s0, i, j + 1) == step(ScanTo(step, s0, i, j), i, j)
  {
    ScanToFrame(step, s0, i, j);
  }

  /** The scan state after every pair. */
  function Scanned<V(!new)>(step: Step<V>, s0: Scan<V>): Scan<V>
    requires Ready(s0) && Keeps(step, s0)
  {
    if |s0.bodies| == 0 then s0 else ScanTo(step, s0, |s0.bodies| - 1, |s0.bodies|)
  }

  lemma ScannedFrame<V(!new)>(step: Step<V>, s0: Scan<V>)
    requires Ready(s0) && Keeps(step, s0)
    ensures Framed(s0, Scanned(step, s0))
  {
    if |s0.bodies| != 0 {
      ScanToFrame(step, s0, |s0.bodies| - 1, |s0.bodies|);
    } else {
      assert SameFrame(s0.bodies, s0.bodies);
    }
  }

  /**
   * Induction along the scan: a property of the state that every step
   * keeps holds of every state the scan reaches.
   */
  lemma {:induction false} ScanToInvariant<V(!new)>(step: Step<V>, s0: Scan<V>, inv: Scan<V> -> bool, i: nat, j: nat)
    requires Ready(s0) && Keeps(step, s0) && i < j <= |s0.bodies| && inv(s0)
    requires forall s, i: nat, j: nat :: Framed(s0, s) && i < j < |s.bodies| && inv(s) ==> inv(step(s, i, j))
    ensures inv(ScanTo(step, s0, i, j))
    decreases i, j
  {
    if i + 1 < j {
      ScanToInvariant(step, s0, inv, i, j - 1);
      ScanToFrame(step, s0, i, j - 1);
    } else if i > 0 {
      ScanToInvariant(step, s0, inv, i - 1, |s0.bodies|);
    }
  }

  lemma ScannedInvariant<V(!new)>(step: Step<V>, s0: Scan<V>, inv: Scan<V> -> bool)
    requires Ready(s0) && Keeps(step, s0) && inv(s0)
    requires forall s, i: nat, j: nat :: Framed(s0, s) && i < j < |s.bodies| && inv(s) ==> inv(step(s, i, j))
    ensures inv(Scanned(step, s0))
  {
    if |s0.bodies| != 0 {
      ScanToInvariant(step, s0, inv, |s0.bodies| - 1, |s0.bodies|);
    }
  }

  /** With two bodies the scan visits the single pair `(0, 1)`. */
  lemma ScannedPair<V(!new)>(step: Step<V>, s0: Scan<V>)
    requires Ready(s0) && Keeps(step, s0) && |s0.bodies| == 2
    ensures step.requires(s0, 0, 1) && Scanned(step, s0) == step(s0, 0, 1)
  {
    ScanToStep(step, s0, 0, 1);
  }

  /** With three bodies the scan visits `(0, 1)`, `(0, 2)` and `(1, 2)`, in this order. */
  lemma ScannedTriple<V(!new)>(step: Step<V>, s0: Scan<V>)
    requires Ready(s0) && Keeps(step, s0) && |s0.bodies| == 3
    ensures step.requires(s0, 0, 1)
    ensures var s1 := step(s0, 0, 1);
      Framed(s0, s1) && step.requires(s1, 0, 2) &&
      var s2 := step(s1, 0, 2);
      Framed(s0, s2) && step.requires(s2, 1, 2) && Scanned(step, s0) == step(s2, 1, 2)
  {
    ScanToStep(step, s0, 0, 1);
    ScanToStep(step, s0, 0, 2);
    assert ScanTo(step, s0, 1, 2) == ScanTo(step, s0, 0, 3);
    ScanToStep(step, s0, 1, 2);
    assert ScanTo(step, s0, 2, 3) == ScanTo(step, s0, 1, 3);
  }
}
