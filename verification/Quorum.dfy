/** The supermajority rule of disputes and the slow-availability test. */
module Quorum {
  import opened Prelude
  import opened BlockInfo

  function SaturatingSub(a: u32, b: u32): u32 { if a >= b then a - b else 0 }

  function SupermajorityThreshold(n: u32): u32 { n - SaturatingSub(n, 1) / 3 }

  /** For a nonempty validator set the threshold is the least number of votes above two thirds. */
  lemma ThresholdIsLeast(n: u32, t: nat)
    requires n > 0
    ensures t >= SupermajorityThreshold(n) <==> 3 * t > 2 * n
  {
    assert n - 1 == 3 * ((n - 1) / 3) + (n - 1) % 3;
  }

  /*** Vote lists: strictly increasing validator indices ***/

  predicate Increasing(s: seq<u32>) { forall i, j :: 0 <= i < j < |s| ==> s[i] < s[j] }

  function Members(s: seq<u32>): set<u32> { set x | x in s }

  lemma {:induction false} IncreasingSize(s: seq<u32>)
    requires Increasing(s)
    ensures |Members(s)| == |s|
  {
    if s != [] {
      IncreasingSize(Front(s));
      assert s == Front(s) + [Last(s)];
      assert Members(s) == Members(Front(s)) + {Last(s)};
    }
  }

  lemma {:induction false} BelowSize(votes: set<u32>, n: u32)
    requires forall x :: x in votes ==> x < n
    ensures |votes| <= n
    decreases n
  {
    if n > 0 {
      BelowSize(votes - {n - 1}, n - 1);
    } else if x :| x in votes {
      assert false;
    }
  }

  predicate ReachedSupermajority(validatorCount: u32, votes: seq<u32>) {
    validatorCount > 0 && |votes| >= SupermajorityThreshold(validatorCount)
  }

  /**
   Quorum intersection: when both sides of a dispute conclude, more than (n-1)/3 validators, the most
   that may be faulty, have voted on both sides.
   */
  lemma BothSidesOverlap(n: u32, votesFor: seq<u32>, votesAgainst: seq<u32>)
    requires Increasing(votesFor) && Increasing(votesAgainst)
    requires forall x :: x in votesFor || x in votesAgainst ==> x < n
    requires ReachedSupermajority(n, votesFor) && ReachedSupermajority(n, votesAgainst)
    ensures |Members(votesFor) * Members(votesAgainst)| >= (n - 1) / 3 + 1
  {
    var f, a := Members(votesFor), Members(votesAgainst);
    IncreasingSize(votesFor);
    IncreasingSize(votesAgainst);
    BelowSize(f + a, n);
    assert |f + a| + |f * a| == |f| + |a|;
    ThresholdIsLeast(n, |f|);
    ThresholdIsLeast(n, |a|);
  }

  /*** Slow availability ***/

  /**
   `IsSlow` never holds at or above the threshold, and it misses a count below the threshold exactly
   when n mod 3 is 2 and one vote is lacking.
   */
  lemma SlowVersusThreshold(current: nat, n: u32)
    requires n > 0
    ensures BlockAvailability(current, n).IsSlow() ==> current < SupermajorityThreshold(n)
    ensures (current < SupermajorityThreshold(n) && !BlockAvailability(current, n).IsSlow()) <==>
            (n % 3 == 2 && current + 1 == SupermajorityThreshold(n))
  {
    assert n == 3 * (n / 3) + n % 3;
    if n % 3 == 0 {
      assert (n - 1) / 3 == n / 3 - 1;
    } else {
      assert (n - 1) / 3 == n / 3;
    }
  }
}
