/** Rebuilding dispute events from the dispute snapshots of consecutive blocks. */
module Disputes {
  import opened Prelude
  import opened Quorum

  datatype DecodedDispute = DecodedDispute(
    session: u32,
    candidateHash: Hash,
    validatorsFor: seq<u32>,
    validatorsAgainst: seq<u32>,
    validatorCount: u32,
    start: u32,
    concludedAt: Option<u32>)
  {
    predicate ConcludedFor() { ReachedSupermajority(validatorCount, validatorsFor) }
    predicate ConcludedAgainst() { ReachedSupermajority(validatorCount, validatorsAgainst) }
    predicate Concluded(outcome: Outcome) { if outcome.Valid? then ConcludedFor() else ConcludedAgainst() }
  }

  datatype Outcome = Valid | Invalid
  datatype SubxtDispute = SubxtDispute(relayParentBlock: Hash, candidateHash: Hash)
  datatype DisputeEvent = Initiated(dispute: SubxtDispute) | Concluded(dispute: SubxtDispute, outcome: Outcome)

  /*** The source's pure functions ***/

  function InitiatedEvents(hash: Hash, block: u32, disputes: seq<DecodedDispute>): seq<DisputeEvent> {
    if disputes == [] then []
    else if Last(disputes).start == block
    then InitiatedEvents(hash, block, Front(disputes)) + [Initiated(SubxtDispute(hash, Last(disputes).candidateHash))]
    else InitiatedEvents(hash, block, Front(disputes))
  }

  function Conclusions(hash: Hash, d: DecodedDispute): seq<DisputeEvent> {
    var dispute := SubxtDispute(hash, d.candidateHash);
    (if d.ConcludedFor() then [Concluded(dispute, Valid)] else []) +
    (if d.ConcludedAgainst() then [Concluded(dispute, Invalid)] else [])
  }

  function ConcludedEvents(hash: Hash, block: u32, disputes: seq<DecodedDispute>): seq<DisputeEvent> {
    if disputes == [] then []
    else if Last(disputes).concludedAt == Some(block)
    then ConcludedEvents(hash, block, Front(disputes)) + Conclusions(hash, Last(disputes))
    else ConcludedEvents(hash, block, Front(disputes))
  }

  function DisputesToChainEvents(hash: Hash, block: u32, disputes: seq<DecodedDispute>): seq<DisputeEvent> {
    InitiatedEvents(hash, block, disputes) + ConcludedEvents(hash, block, disputes)
  }

  function ConcludedEarlierBothWays(block: u32, disputes: seq<DecodedDispute>): set<Hash> {
    set d | d in disputes && d.concludedAt.Some? && d.concludedAt.value < block &&
            d.ConcludedFor() && d.ConcludedAgainst() :: d.candidateHash
  }

  /** The keys by which the shadow comparison looks at a list of events. */
  function InitiatedKeys(events: seq<DisputeEvent>): set<Hash> {
    set e | e in events && e.Initiated? :: e.dispute.candidateHash
  }

  function ConcludedKeys(events: seq<DisputeEvent>): set<(Hash, Outcome)> {
    set e | e in events && e.Concluded? :: (e.dispute.candidateHash, e.outcome)
  }

  lemma {:induction false} InitiatedMembers(hash: Hash, block: u32, disputes: seq<DecodedDispute>, e: DisputeEvent)
    ensures e in InitiatedEvents(hash, block, disputes) <==>
            exists d :: d in disputes && d.start == block && e == Initiated(SubxtDispute(hash, d.candidateHash))
  {
    if disputes != [] {
      InitiatedMembers(hash, block, Front(disputes), e);
      assert disputes == Front(disputes) + [Last(disputes)];
    }
  }

  lemma {:induction false} ConcludedMembers(hash: Hash, block: u32, disputes: seq<DecodedDispute>, e: DisputeEvent)
    ensures e in ConcludedEvents(hash, block, disputes) <==>
            exists d :: d in disputes && d.concludedAt == Some(block) && e in Conclusions(hash, d)
  {
    if disputes != [] {
      ConcludedMembers(hash, block, Front(disputes), e);
      assert disputes == Front(disputes) + [Last(disputes)];
    }
  }

  function StartsIn(block: u32): DecodedDispute -> bool { (d: DecodedDispute) => d.start == block }

  function InitiationOf(hash: Hash): DecodedDispute -> DisputeEvent {
    (d: DecodedDispute) => Initiated(SubxtDispute(hash, d.candidateHash))
  }

  /** One initiation for each dispute that started in the block, in order, naming the block. */
  lemma {:induction false} InitiationsExactly(hash: Hash, block: u32, disputes: seq<DecodedDispute>)
    ensures Selects(disputes, StartsIn(block), InitiationOf(hash), InitiatedEvents(hash, block, disputes))
  {
    hide Selects;
    if disputes == [] {
      SelectsNothing(StartsIn(block), InitiationOf(hash));
    } else {
      var before := InitiatedEvents(hash, block, Front(disputes));
      InitiationsExactly(hash, block, Front(disputes));
      SelectsSnoc(Front(disputes), StartsIn(block), InitiationOf(hash), before, Last(disputes));
      assert Front(disputes) + [Last(disputes)] == disputes;
    }
  }

  /** Two thirds of the validators, and more, are on the side of the outcome. */
  predicate Supermajority(d: DecodedDispute, outcome: Outcome) {
    d.validatorCount > 0 &&
    3 * |if outcome.Valid? then d.validatorsFor else d.validatorsAgainst| > 2 * d.validatorCount
  }

  /** A dispute concluded in the block gives one conclusion per side that reached the supermajority, valid first. */
  lemma ConclusionExactly(hash: Hash, block: u32, d: DecodedDispute)
    ensures var dispute := SubxtDispute(hash, d.candidateHash);
            var valid, invalid := Concluded(dispute, Valid), Concluded(dispute, Invalid);
            ConcludedEvents(hash, block, [d]) ==
            if d.concludedAt != Some(block) then []
            else if Supermajority(d, Valid) && Supermajority(d, Invalid) then [valid, invalid]
            else if Supermajority(d, Valid) then [valid]
            else if Supermajority(d, Invalid) then [invalid]
            else []
  {
    assert Front([d]) == [];
    if d.validatorCount > 0 {
      ThresholdIsLeast(d.validatorCount, |d.validatorsFor|);
      ThresholdIsLeast(d.validatorCount, |d.validatorsAgainst|);
    }
  }

  lemma {:induction false} ConclusionsInOrder(hash: Hash, block: u32, a: seq<DecodedDispute>, b: seq<DecodedDispute>)
    ensures ConcludedEvents(hash, block, a + b) == ConcludedEvents(hash, block, a) + ConcludedEvents(hash, block, b)
    decreases |b|
  {
    hide Conclusions;
    if b == [] {
      assert a + b == a;
    } else {
      ConclusionsInOrder(hash, block, a, Front(b));
      assert Front(a + b) == a + Front(b) && Last(a + b) == Last(b);
      AppendAssoc(ConcludedEvents(hash, block, a), ConcludedEvents(hash, block, Front(b)), Conclusions(hash, Last(b)));
    }
  }

  /** The rebuilt events are all the initiations and then all the conclusions. */
  lemma InitiationsComeFirst(hash: Hash, block: u32, disputes: seq<DecodedDispute>)
    ensures var n, events := |InitiatedEvents(hash, block, disputes)|, DisputesToChainEvents(hash, block, disputes);
            && n <= |events| && events[..n] == InitiatedEvents(hash, block, disputes)
            && events[n..] == ConcludedEvents(hash, block, disputes)
  {
  }

  /*** The dispute process of the relay chain ***/

  predicate DistinctCandidates(ds: seq<DecodedDispute>) {
    forall i, j :: 0 <= i < j < |ds| ==> ds[i].candidateHash != ds[j].candidateHash
  }

  predicate HasReached(d: DecodedDispute) { d.ConcludedFor() || d.ConcludedAgainst() }

  /** Votes are never withdrawn. */
  predicate VotesGrow(older: DecodedDispute, newer: DecodedDispute) {
    && older.validatorCount == newer.validatorCount
    && Members(older.validatorsFor) <= Members(newer.validatorsFor)
    && Members(older.validatorsAgainst) <= Members(newer.validatorsAgainst)
  }

  /** `newer` continues `older` in block `block`: the first crossing fixes `concludedAt`. */
  predicate Continues(older: DecodedDispute, newer: DecodedDispute, block: u32) {
    && older.candidateHash == newer.candidateHash && older.start == newer.start
    && VotesGrow(older, newer)
    && newer.concludedAt == (if older.concludedAt.Some? then older.concludedAt
                             else if HasReached(newer) then Some(block) else None)
  }

  predicate Starts(d: DecodedDispute, block: u32) {
    d.start == block && d.concludedAt == (if HasReached(d) then Some(block) else None)
  }

  predicate Known(ds: seq<DecodedDispute>, hash: Hash) { exists d :: d in ds && d.candidateHash == hash }

  predicate WellFormed(ds: seq<DecodedDispute>) {
    && DistinctCandidates(ds)
    && forall d :: d in ds ==> d.validatorCount > 0 && Increasing(d.validatorsFor) && Increasing(d.validatorsAgainst)
  }

  /** One block: every listed dispute starts in it or continues one of the previous snapshot; old ones may be pruned. */
  predicate NextBlock(older: seq<DecodedDispute>, newer: seq<DecodedDispute>, block: u32) {
    && WellFormed(newer)
    && forall d :: d in newer ==>
      if Known(older, d.candidateHash) then exists o :: o in older && Continues(o, d, block) else Starts(d, block)
  }

  /** A snapshot and the number of its block. */
  datatype Snapshot = Snapshot(block: u32, disputes: seq<DecodedDispute>)

  predicate Follows(chain: seq<Snapshot>, i: nat)
    requires i < |chain|
  {
    NextBlock(Before(chain, i), chain[i].disputes, chain[i].block)
  }

  /** A run of the process: block numbers grow, nothing is disputed before the first snapshot. */
  predicate Process(chain: seq<Snapshot>) {
    && (forall i :: 0 <= i < |chain| ==> Follows(chain, i))
    && (forall i, j :: 0 <= i < j < |chain| ==> chain[i].block < chain[j].block)
  }

  function Before(chain: seq<Snapshot>, i: nat): seq<DecodedDispute>
    requires i < |chain|
  {
    if i == 0 then [] else chain[i - 1].disputes
  }

  /*** The events the relay chain itself emits in block i ***/

  ghost predicate Crosses(older: seq<DecodedDispute>, newer: seq<DecodedDispute>, hash: Hash, outcome: Outcome) {
    && (exists d :: d in newer && d.candidateHash == hash && d.Concluded(outcome))
    && !exists o :: o in older && o.candidateHash == hash && o.Concluded(outcome)
  }

  /*** Agreement ***/

  /** Nothing in a snapshot lies beyond its block, and a conclusion is recorded iff a side reached it. */
  predicate Settled(ds: seq<DecodedDispute>, block: u32) {
    forall d :: d in ds ==>
      && d.start <= block
      && (d.concludedAt.Some? ==> d.concludedAt.value <= block)
      && (d.concludedAt.Some? <==> HasReached(d))
  }

  /** `older` is a well-formed snapshot settled before `block`, and `newer` is the snapshot of `block`. */
  predicate Linked(older: seq<DecodedDispute>, newer: seq<DecodedDispute>, block: u32) {
    && WellFormed(older) && (older == [] || (block > 0 && Settled(older, block - 1)))
    && NextBlock(older, newer, block)
  }

  lemma ReachedStays(older: DecodedDispute, newer: DecodedDispute, outcome: Outcome)
    requires VotesGrow(older, newer) && older.Concluded(outcome)
    requires Increasing(older.validatorsFor) && Increasing(older.validatorsAgainst)
    requires Increasing(newer.validatorsFor) && Increasing(newer.validatorsAgainst)
    ensures newer.Concluded(outcome)
  {
    VotesCount(older.validatorsFor, newer.validatorsFor);
    VotesCount(older.validatorsAgainst, newer.validatorsAgainst);
  }

  lemma VotesCount(a: seq<u32>, b: seq<u32>)
    requires Increasing(a) && Increasing(b)
    ensures Members(a) <= Members(b) ==> |a| <= |b|
  {
    IncreasingSize(a);
    IncreasingSize(b);
    if Members(a) <= Members(b) {
      assert |Members(b)| == |Members(a)| + |Members(b) - Members(a)|;
    }
  }

  lemma ReachedContinues(older: DecodedDispute, newer: DecodedDispute, block: u32)
    requires Continues(older, newer, block)
    requires Increasing(older.validatorsFor) && Increasing(older.validatorsAgainst)
    requires Increasing(newer.validatorsFor) && Increasing(newer.validatorsAgainst)
    ensures forall outcome :: older.Concluded(outcome) ==> newer.Concluded(outcome)
  {
    forall outcome | older.Concluded(outcome)
      ensures newer.Concluded(outcome)
    {
      ReachedStays(older, newer, outcome);
    }
  }

  lemma LinkedSettles(older: seq<DecodedDispute>, newer: seq<DecodedDispute>, block: u32)
    requires Linked(older, newer, block)
    ensures Settled(newer, block)
  {
    forall d | d in newer
      ensures d.start <= block && (d.concludedAt.Some? ==> d.concludedAt.value <= block)
      ensures d.concludedAt.Some? <==> HasReached(d)
    {
      if Known(older, d.candidateHash) {
        var o :| o in older && Continues(o, d, block);
        ReachedContinues(o, d, block);
        assert o.ConcludedFor() ==> o.Concluded(Valid) && d.Concluded(Valid);
        assert o.ConcludedAgainst() ==> o.Concluded(Invalid) && d.Concluded(Invalid);
      }
    }
  }

  lemma SettledLater(ds: seq<DecodedDispute>, block: u32, later: u32)
    requires Settled(ds, block) && block <= later
    ensures Settled(ds, later)
  {
  }

  lemma {:induction false} ProcessLinks(chain: seq<Snapshot>, i: nat)
    requires Process(chain) && i < |chain|
    ensures Linked(Before(chain, i), chain[i].disputes, chain[i].block)
    ensures Settled(chain[i].disputes, chain[i].block)
  {
    var older, newer, block := Before(chain, i), chain[i].disputes, chain[i].block;
    assert Follows(chain, i);
    if i > 0 {
      ProcessLinks(chain, i - 1);
      assert WellFormed(older);
      SettledLater(older, chain[i - 1].block, block - 1);
    }
    hide Process, NextBlock, Settled;
    assert Linked(older, newer, block);
    LinkedSettles(older, newer, block);
  }

  lemma SameCandidate(ds: seq<DecodedDispute>, a: DecodedDispute, b: DecodedDispute)
    requires DistinctCandidates(ds) && a in ds && b in ds && a.candidateHash == b.candidateHash
    ensures a == b
  {
    var i :| 0 <= i < |ds| && ds[i] == a;
    var j :| 0 <= j < |ds| && ds[j] == b;
  }

  /** The unique entry of a candidate decides every question about its hash. */
  lemma OnlyEntry(ds: seq<DecodedDispute>, d: DecodedDispute, outcome: Outcome)
    requires DistinctCandidates(ds) && d in ds
    ensures (exists e :: e in ds && e.candidateHash == d.candidateHash && e.Concluded(outcome)) <==>
        d.Concluded(outcome)
    ensures (exists e :: e in ds && e.candidateHash == d.candidateHash && e.concludedAt.Some?) <==> d.concludedAt.Some?
  {
    forall e | e in ds && e.candidateHash == d.candidateHash
      ensures e == d
    {
      SameCandidate(ds, e, d);
    }
  }

  lemma EarlierBothWays(ds: seq<DecodedDispute>, d: DecodedDispute, block: u32)
    requires DistinctCandidates(ds) && d in ds
    ensures d.candidateHash in ConcludedEarlierBothWays(block, ds) <==>
            d.concludedAt.Some? && d.concludedAt.value < block && d.ConcludedFor() && d.ConcludedAgainst()
  {
    forall e | e in ds && e.candidateHash == d.candidateHash
      ensures e == d
    {
      SameCandidate(ds, e, d);
    }
  }

  /** The dispute had concluded, one way or the other, before this block. */
  predicate ConcludedBefore(older: seq<DecodedDispute>, hash: Hash) {
    exists o :: o in older && o.candidateHash == hash && o.concludedAt.Some?
  }

  /**
   One side of one dispute: `concludedAt` is this block iff it crosses here for the first time; a crossing
   after an earlier conclusion is a second one, and then both sides have reached the supermajority.
   */
  lemma OneDispute(older: seq<DecodedDispute>, newer: seq<DecodedDispute>, block: u32, d: DecodedDispute,
                   outcome: Outcome)
    requires Linked(older, newer, block) && d in newer
    ensures (d.concludedAt == Some(block) && d.Concluded(outcome)) <==>
            (Crosses(older, newer, d.candidateHash, outcome) && !ConcludedBefore(older, d.candidateHash))
    ensures Crosses(older, newer, d.candidateHash, outcome) ==>
            (ConcludedBefore(older, d.candidateHash) <==> d.candidateHash in ConcludedEarlierBothWays(block, newer))
  {
    LinkedSettles(older, newer, block);
    OnlyEntry(newer, d, outcome);
    EarlierBothWays(newer, d, block);
    if Known(older, d.candidateHash) {
      var o :| o in older && Continues(o, d, block);
      OnlyEntry(older, o, outcome);
      ReachedContinues(o, d, block);
      assert o.ConcludedFor() ==> o.Concluded(Valid) && d.Concluded(Valid);
      assert o.ConcludedAgainst() ==> o.Concluded(Invalid) && d.Concluded(Invalid);
    }
  }

  /** The conclusions of block i that are rebuilt from its snapshot. */
  function RebuiltConclusions(hash: Hash, s: Snapshot): set<(Hash, Outcome)> {
    ConcludedKeys(DisputesToChainEvents(hash, s.block, s.disputes))
  }

  lemma RebuiltMembers(hash: Hash, s: Snapshot, h: Hash, outcome: Outcome)
    ensures (h, outcome) in RebuiltConclusions(hash, s) <==>
            exists d :: d in s.disputes && d.candidateHash == h && d.concludedAt == Some(s.block) &&
                d.Concluded(outcome)
  {
    var e := Concluded(SubxtDispute(hash, h), outcome);
    var events := DisputesToChainEvents(hash, s.block, s.disputes);
    ConcludedMembers(hash, s.block, s.disputes, e);
    if (h, outcome) in RebuiltConclusions(hash, s) {
      var x :| x in events && x.Concluded? && (x.dispute.candidateHash, x.outcome) == (h, outcome);
      InitiatedMembers(hash, s.block, s.disputes, x);
      ConcludedMembers(hash, s.block, s.disputes, x);
    }
    if d :| d in s.disputes && d.candidateHash == h && d.concludedAt == Some(s.block) && d.Concluded(outcome) {
      assert e in Conclusions(hash, d);
      assert e in events;
    }
  }

  /** The two-snapshot core of the theorems below. */
  lemma StepConclusions(older: seq<DecodedDispute>, s: Snapshot, hash: Hash, h: Hash, outcome: Outcome)
    requires Linked(older, s.disputes, s.block)
    ensures (h, outcome) in RebuiltConclusions(hash, s) <==>
            Crosses(older, s.disputes, h, outcome) && !ConcludedBefore(older, h)
    ensures Crosses(older, s.disputes, h, outcome) ==>
            (ConcludedBefore(older, h) <==> h in ConcludedEarlierBothWays(s.block, s.disputes))
  {
    RebuiltMembers(hash, s, h, outcome);
    if Known(s.disputes, h) {
      var d :| d in s.disputes && d.candidateHash == h;
      OneDispute(older, s.disputes, s.block, d, outcome);
      forall e | e in s.disputes && e.candidateHash == h
        ensures e == d
      {
        SameCandidate(s.disputes, e, d);
      }
    }
  }

  /**
   Snapshot-to-event equivalence: in every block of every run of the process, the conclusions the chain
   emits, less the excluded candidates, are exactly the conclusions rebuilt from the snapshot.
   */
  lemma ConclusionsAgree(chain: seq<Snapshot>, i: nat, hash: Hash, h: Hash, outcome: Outcome)
    requires Process(chain) && i < |chain|
    ensures (h, outcome) in RebuiltConclusions(hash, chain[i]) <==>
            Crosses(Before(chain, i), chain[i].disputes, h, outcome) &&
            h !in ConcludedEarlierBothWays(chain[i].block, chain[i].disputes)
  {
    ProcessLinks(chain, i);
    StepConclusions(Before(chain, i), chain[i], hash, h, outcome);
  }

  /**
   The one gap of the rebuilt events: a crossing is missed exactly when the dispute had concluded in an earlier block.
   */
  lemma MissedExactly(chain: seq<Snapshot>, i: nat, hash: Hash, h: Hash, outcome: Outcome)
    requires Process(chain) && i < |chain|
    requires Crosses(Before(chain, i), chain[i].disputes, h, outcome)
    ensures (h, outcome) !in RebuiltConclusions(hash, chain[i]) <==> ConcludedBefore(Before(chain, i), h)
  {
    ProcessLinks(chain, i);
    StepConclusions(Before(chain, i), chain[i], hash, h, outcome);
  }

  /** One validator votes for a candidate in block 1 and also against it in block 2. */
  function BothWays(): seq<Snapshot> {
    [Snapshot(1, [DecodedDispute(0, 7, [0], [], 1, 1, Some(1))]),
     Snapshot(2, [DecodedDispute(0, 7, [0], [0], 1, 1, Some(1))])]
  }

  /** The gap is real: the second conclusion of that dispute is crossed in block 2 and not rebuilt. */
  lemma SecondConclusionMissed(hash: Hash)
    ensures Process(BothWays())
    ensures Crosses(Before(BothWays(), 1), BothWays()[1].disputes, 7, Invalid)
    ensures (7, Invalid) !in RebuiltConclusions(hash, BothWays()[1])
  {
    var chain := BothWays();
    var o, d := chain[0].disputes[0], chain[1].disputes[0];
    assert Starts(o, 1) && Continues(o, d, 2);
    assert o in chain[0].disputes && d in chain[1].disputes && d.Concluded(Invalid);
    assert Known(chain[0].disputes, 7);
    assert Follows(chain, 0) && Follows(chain, 1);
    RebuiltMembers(hash, chain[1], 7, Invalid);
  }

  lemma RebuiltInitiations(hash: Hash, s: Snapshot, h: Hash)
    ensures h in InitiatedKeys(DisputesToChainEvents(hash, s.block, s.disputes)) <==>
            exists d :: d in s.disputes && d.candidateHash == h && d.start == s.block
  {
    var e := Initiated(SubxtDispute(hash, h));
    var events := DisputesToChainEvents(hash, s.block, s.disputes);
    InitiatedMembers(hash, s.block, s.disputes, e);
    if h in InitiatedKeys(events) {
      var x :| x in events && x.Initiated? && x.dispute.candidateHash == h;
      InitiatedMembers(hash, s.block, s.disputes, x);
      ConcludedMembers(hash, s.block, s.disputes, x);
    }
    if d :| d in s.disputes && d.candidateHash == h && d.start == s.block {
      assert e in events;
    }
  }

  /** The initiations rebuilt from a snapshot are exactly the disputes that were not in the previous one. */
  lemma InitiationsAgree(chain: seq<Snapshot>, i: nat, hash: Hash, h: Hash)
    requires Process(chain) && i < |chain|
    ensures h in InitiatedKeys(DisputesToChainEvents(hash, chain[i].block, chain[i].disputes)) <==>
            Known(chain[i].disputes, h) && !Known(Before(chain, i), h)
  {
    ProcessLinks(chain, i);
    RebuiltInitiations(hash, chain[i], h);
    var older, s := Before(chain, i), chain[i];
    if Known(s.disputes, h) {
      var d :| d in s.disputes && d.candidateHash == h;
      forall e | e in s.disputes && e.candidateHash == h
        ensures e == d
      {
        SameCandidate(s.disputes, e, d);
      }
      if Known(older, h) {
        var o :| o in older && Continues(o, d, s.block);
        assert o.start <= s.block - 1;
      }
    }
  }
}
