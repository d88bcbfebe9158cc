/** What the stored candidates and disputes say, told from the chain events alone. */
module RecordHistory {
  import opened Prelude
  import opened StoreSpec
  import opened CollectorSpec
  import opened LinkedRecords
  import D = Disputes
  import E = Decoders
  import I = Inherent

  /*** Who started a dispute ***/

  function IsInvalid(): ((I.DisputeStatement, u32)) -> bool { (x: (I.DisputeStatement, u32)) => x.0.Invalid? }
  function Voter(): ((I.DisputeStatement, u32)) -> u32 { (x: (I.DisputeStatement, u32)) => x.1 }

  /** The first statement set about the candidate. */
  predicate FirstSet(sets: seq<I.DisputeStatementSet>, k: Hash, i: nat) {
    && i < |sets| && E.HashOf(sets[i].candidateHash) == k
    && forall j :: 0 <= j < i ==> E.HashOf(sets[j].candidateHash) != k
  }

  predicate NoSet(sets: seq<I.DisputeStatementSet>, k: Hash) {
    forall i :: 0 <= i < |sets| ==> E.HashOf(sets[i].candidateHash) != k
  }

  /** The inherent that the store holds of a block: none, one that does not decode, or its statement sets. */
  ghost predicate HoldsInherent(st: Store, block: Hash, sets: seq<I.DisputeStatementSet>) {
    var e := GetPrefix(st, InherentPrefix, block);
    e.Some? && e.value.data.InherentRecord? && e.value.data.data.disputes == sets
  }

  /**
   The initiators are the validators with an invalid statement in the first set about the candidate, in order, with
   the session of that set; without an inherent or such a set it is nobody, in the current session.
   */
  ghost predicate StartedBy(s: State, d: D.SubxtDispute, voters: seq<u32>, session: u32) {
    || (GetPrefix(s.store, InherentPrefix, d.relayParentBlock).None? && voters == [] && session == s.session)
    || exists sets :: HoldsInherent(s.store, d.relayParentBlock, sets) &&
                      StartedIn(s, d.candidateHash, sets, voters, session)
  }

  ghost predicate StartedIn(s: State, k: Hash, sets: seq<I.DisputeStatementSet>, voters: seq<u32>, session: u32) {
    || (NoSet(sets, k) && voters == [] && session == s.session)
    || exists i: nat :: FirstSet(sets, k, i) && session == sets[i].session &&
                   Selects(sets[i].statements, IsInvalid(), Voter(), voters)
  }

  lemma {:induction false} InvalidVotersExactly(statements: seq<(I.DisputeStatement, u32)>)
    ensures Selects(statements, IsInvalid(), Voter(), InvalidVoters(statements))
  {
    hide Selects;
    if statements == [] {
      SelectsNothing(IsInvalid(), Voter());
    } else {
      InvalidVotersExactly(Front(statements));
      SelectsSnoc(Front(statements), IsInvalid(), Voter(), InvalidVoters(Front(statements)), Last(statements));
      assert Front(statements) + [Last(statements)] == statements;
    }
  }

  lemma {:induction false} FindSetExactly(sets: seq<I.DisputeStatementSet>, k: Hash)
    ensures FindSet(sets, k).None? <==> NoSet(sets, k)
    ensures FindSet(sets, k).Some? ==> exists i: nat :: FirstSet(sets, k, i) && FindSet(sets, k).value == sets[i]
  {
    hide E.HashOf;
    if sets != [] && E.HashOf(sets[0].candidateHash) == k {
      assert FirstSet(sets, k, 0);
    } else if sets != [] {
      var rest := sets[1..];
      FindSetExactly(rest, k);
      assert forall i :: 1 <= i < |sets| ==> sets[i] == rest[i - 1];
      if FindSet(rest, k).Some? {
        var i: nat :| FirstSet(rest, k, i) && FindSet(rest, k).value == rest[i];
        assert sets[i + 1] == rest[i];
        assert FirstSet(sets, k, i + 1);
      }
    }
  }

  /** The initiators are unknown only when the stored inherent of the block does not decode. */
  lemma InitiatorsExactly(s: State, d: D.SubxtDispute)
    ensures Initiators(s, d).None? <==>
            var e := GetPrefix(s.store, InherentPrefix, d.relayParentBlock);
            e.Some? && !e.value.data.InherentRecord?
    ensures Initiators(s, d).Some? ==> StartedBy(s, d, Initiators(s, d).value.0, Initiators(s, d).value.1)
  {
    var e := GetPrefix(s.store, InherentPrefix, d.relayParentBlock);
    if e.Some? && e.value.data.InherentRecord? {
      var sets := e.value.data.data.disputes;
      assert HoldsInherent(s.store, d.relayParentBlock, sets);
      hide E.HashOf, FindSet, InvalidVoters, Selects, StartedIn, GetPrefix;
      SetStarts(s, sets, d.candidateHash);
    }
  }

  lemma SetStarts(s: State, sets: seq<I.DisputeStatementSet>, k: Hash)
    ensures match FindSet(sets, k)
            case None => StartedIn(s, k, sets, [], s.session)
            case Some(found) => StartedIn(s, k, sets, InvalidVoters(found.statements), found.session)
  {
    FindSetExactly(sets, k);
    hide E.HashOf, FindSet, InvalidVoters, NoSet, Selects;
    var found := FindSet(sets, k);
    if found.Some? {
      var i: nat :| FirstSet(sets, k, i) && found.value == sets[i];
      InvalidVotersExactly(sets[i].statements);
    }
  }

  /** A dispute as it is first listed. */
  ghost predicate OpenedBy(s: State, d: D.SubxtDispute, p: ParaId, info: DisputeInfo) {
    && info.dispute == d && info.parachainId == p && info.initiated == s.number
    && info.outcome.None? && info.concluded.None?
    && StartedBy(s, d, info.initiatorIndices, info.sessionIndex)
  }

  /** An initiation of a known candidate lists one more dispute of its para, with exactly these initiators. */
  lemma InitiationListed(s: State, d: D.SubxtDispute)
    ensures var found, s' := FindCandidate(s.store, d.candidateHash), ProcessInitiated(s, d);
            if found.None? || Initiators(s, d).None? then s' == s
            else
              var p := found.value.parachainId;
              && s' == s.(disputesSeen := s'.disputesSeen, store := s'.store)
              && s'.disputesSeen.Keys == s.disputesSeen.Keys + {p}
              && (forall q :: q in s.disputesSeen && q != p ==> s'.disputesSeen[q] == s.disputesSeen[q])
              && exists info :: s'.disputesSeen[p] == GetList(s.disputesSeen, p) + [info] && OpenedBy(s, d, p, info)
  {
    InitiatorsExactly(s, d);
    hide FindCandidate, Initiators, StartedBy, InsertPrefix, ReplacePrefixed;
    var found, who := FindCandidate(s.store, d.candidateHash), Initiators(s, d);
    if found.Some? && who.Some? {
      assert OpenedBy(s, d, found.value.parachainId, NewDispute(s, d, found.value.parachainId, who.value));
    }
  }

  /*** One event, seen from one candidate ***/

  /** Candidate records are filed under their own para, and dispute prefixes hold disputes. */
  ghost predicate Filed(st: Store) {
    && (forall p, k :: FiledCandidate(st, p, k))
    && (forall p, k :: FiledDispute(st, p, k))
  }

  ghost predicate FiledCandidate(st: Store, p: ParaId, k: Hash) {
    var e := GetPrefix(st, CandidateOf(p), k);
    e.Some? ==> e.value.data.CandidateData? && e.value.data.c.parachainId == p
  }

  ghost predicate FiledDispute(st: Store, p: ParaId, k: Hash) {
    var e := GetPrefix(st, DisputeOf(p), k);
    e.Some? ==> e.value.data.DisputeData?
  }

  function DisputeAt(st: Store, p: ParaId, k: Hash): Option<DisputeInfo> {
    match GetPrefix(st, DisputeOf(p), k)
    case Some(e) => if e.data.DisputeData? then Some(e.data.d) else None
    case None => None
  }

  /** What can happen to a candidate or to its dispute. */
  datatype Mark = Outcome(t: E.EventType) | Disputed | Conclusion

  /** The hash leads to the candidate of this para. */
  predicate LeadsTo(st: Store, p: ParaId, k: Hash) {
    FindCandidate(st, k).Some? && FindCandidate(st, k).value.parachainId == p
  }

  /** The event concerns the stored candidate `k` of para `p`. */
  ghost predicate Marks(s: State, op: Op, p: ParaId, k: Hash, m: Mark) {
    match m
    case Outcome(t) =>
      op.Candidate? && op.ev.parachainId == p && op.ev.candidateHash == k && op.ev.eventType == t
    case Disputed => StartsDispute(s, op, p, k) || EndsDispute(s, op, p, k)
    case Conclusion => EndsDispute(s, op, p, k)
  }

  predicate EndsDispute(s: State, op: Op, p: ParaId, k: Hash) {
    op.Concludes? && op.d.candidateHash == k && LeadsTo(s.store, p, k)
  }

  /** A first dispute about the candidate, with known initiators. */
  ghost predicate StartsDispute(s: State, op: Op, p: ParaId, k: Hash) {
    && op.Initiated? && op.d.candidateHash == k && LeadsTo(s.store, p, k)
    && Initiators(s, op.d).Some? && !Stored(s.store.records, DisputeOf(p), k)
  }

  function DisputeMark(s: State, op: Op): CandidateDisputed {
    CandidateDisputed(s.number, if op.Concludes? then Some((s.number, op.outcome)) else None)
  }

  /** The number of the relay parent: that of its stored header, or the fetched one when none is stored. */
  ghost predicate KnownHeader(st: Store, relayParent: Hash, fetched: Option<u32>, number: u32) {
    var e := GetPrefix(st, RelayBlockHeader, relayParent);
    if e.Some? then e.value.data == HeaderData(number) else fetched == Some(number)
  }

  /** A backing that creates the record. */
  ghost predicate Creates(s: State, op: Op, p: ParaId, k: Hash, c: CandidateRecord) {
    && op.Candidate? && op.ev.eventType.Backed? && op.ev.parachainId == p && op.ev.candidateHash == k
    && c.parachainId == p && c.backed == s.number && c.coreIdx == op.ev.coreIdx && c.relayParent == op.ev.relayParent
    && KnownHeader(PointerWritten(s, op.ev), op.ev.relayParent, op.fetched, c.relayParentNumber)
    && c.included.None? && c.timedout.None? && c.disputed.None?
  }

  /** A record found afterwards is the one before with this event applied, or it was created by it. */
  ghost predicate Follows(s: State, op: Op, p: ParaId, k: Hash, before: Option<CandidateRecord>,
                          after: Option<CandidateRecord>) {
    after.Some? ==>
      match before
      case None => Creates(s, op, p, k, after.value)
      case Some(c) =>
        && after.value == c.(included := after.value.included, timedout := after.value.timedout,
                             disputed := after.value.disputed)
        && after.value.included == (if Marks(s, op, p, k, Outcome(E.Included)) then Some(s.number) else c.included)
        && after.value.timedout == (if Marks(s, op, p, k, Outcome(E.TimedOut)) then Some(s.number) else c.timedout)
        && after.value.disputed == (if Marks(s, op, p, k, Disputed) then Some(DisputeMark(s, op)) else c.disputed)
  }

  ghost predicate DisputeFollows(s: State, op: Op, p: ParaId, k: Hash, before: Option<DisputeInfo>,
                                 after: Option<DisputeInfo>) {
    after.Some? ==>
      match before
      case None =>
        && StartsDispute(s, op, p, k) && after.value.dispute == op.d && after.value.parachainId == p
        && after.value.initiated == s.number && after.value.outcome.None? && after.value.concluded.None?
        && StartedBy(s, op.d, after.value.initiatorIndices, after.value.sessionIndex)
      case Some(d) =>
        if Marks(s, op, p, k, Conclusion)
        then after.value == d.(outcome := Some(op.outcome), concluded := Some(s.number))
        else after.value == d
  }

  /** Nothing but evictions. */
  ghost predicate OnlyLoses(st: Store, st': Store, q: Prefix, k: Hash) {
    GetPrefix(st', q, k).Some? ==> GetPrefix(st', q, k) == GetPrefix(st, q, k)
  }

  lemma InsertMay(st: Store, q: Prefix, j: Hash, e: StorageEntry<Data>, q': Prefix, k: Hash)
    ensures var st' := InsertPrefix(st, q, j, e);
            OnlyLoses(st, st', q', k) ||
            (q' == q && k == j && GetPrefix(st, q, j).None? && GetPrefix(st', q', k) == Some(e))
  {
    if !Stored(st.records, q, j) {
      InsertAt(st, q, j, e, q', k);
    }
  }

  /** What one event does to the two records of one candidate. */
  ghost predicate CandidateMoves(s: State, op: Op, p: ParaId, k: Hash, st: Store) {
    Follows(s, op, p, k, CandidateAt(s.store, p, k), CandidateAt(st, p, k)) && FiledCandidate(st, p, k)
  }

  ghost predicate DisputeMoves(s: State, op: Op, p: ParaId, k: Hash, st: Store) {
    DisputeFollows(s, op, p, k, DisputeAt(s.store, p, k), DisputeAt(st, p, k)) && FiledDispute(st, p, k)
  }

  ghost predicate Unmarked(s: State, op: Op, p: ParaId, k: Hash) {
    && !Marks(s, op, p, k, Outcome(E.Included)) && !Marks(s, op, p, k, Outcome(E.TimedOut))
    && !Marks(s, op, p, k, Disputed)
  }

  lemma KeepsCandidate(s: State, op: Op, p: ParaId, k: Hash, st: Store)
    requires FiledCandidate(s.store, p, k) && OnlyLoses(s.store, st, CandidateOf(p), k) && Unmarked(s, op, p, k)
    ensures CandidateMoves(s, op, p, k, st)
  {
    hide Marks;
  }

  lemma KeepsDispute(s: State, op: Op, p: ParaId, k: Hash, st: Store)
    requires FiledDispute(s.store, p, k) && OnlyLoses(s.store, st, DisputeOf(p), k)
    requires !Marks(s, op, p, k, Conclusion)
    ensures DisputeMoves(s, op, p, k, st)
  {
    hide Marks;
  }

  lemma WritesCandidate(s: State, op: Op, p: ParaId, k: Hash, st: Store, c: CandidateRecord)
    requires GetPrefix(st, CandidateOf(p), k) == Some(Entry(s.number, CandidateData(c))) && c.parachainId == p
    requires Follows(s, op, p, k, CandidateAt(s.store, p, k), Some(c))
    ensures CandidateMoves(s, op, p, k, st)
  {
    hide Follows;
  }

  lemma WritesDispute(s: State, op: Op, p: ParaId, k: Hash, st: Store, d: DisputeInfo)
    requires GetPrefix(st, DisputeOf(p), k) == Some(Entry(s.number, DisputeData(d)))
    requires DisputeFollows(s, op, p, k, DisputeAt(s.store, p, k), Some(d))
    ensures DisputeMoves(s, op, p, k, st)
  {
    hide DisputeFollows;
  }

  lemma NoMark(s: State, op: Op, p: ParaId, k: Hash)
    requires !op.Initiated? && !op.Concludes?
    ensures !Marks(s, op, p, k, Disputed)
  {
  }

  /** Up to the candidate write a backing adds nothing under other prefixes than the pointer's and the header's. */
  lemma BackedLoses(s: State, ev: CandidateEvent, fetched: Option<u32>, q: Prefix, k: Hash)
    requires !q.CandidatesParachains? && !q.RelayBlockHeader?
    ensures OnlyLoses(s.store, ReadOrFetch(PointerWritten(s, ev), ev.relayParent, fetched), q, k)
  {
    InsertMay(s.store, CandidatesParachains, ev.candidateHash, Entry(s.number, ParaOf(ev.parachainId)), q, k);
    if fetched.Some? {
      InsertMay(PointerWritten(s, ev), RelayBlockHeader, ev.relayParent,
                Entry(fetched.value, HeaderData(fetched.value)), q, k);
    }
  }

  lemma BackedMoves(s: State, ev: CandidateEvent, fetched: Option<u32>, p: ParaId, k: Hash)
    requires FiledCandidate(s.store, p, k) && FiledDispute(s.store, p, k) && ev.eventType.Backed?
    ensures CandidateMoves(s, Candidate(ev, fetched), p, k, ProcessBacked(s, ev, fetched).store)
    ensures DisputeMoves(s, Candidate(ev, fetched), p, k, ProcessBacked(s, ev, fetched).store)
  {
    var op, st := Candidate(ev, fetched), ProcessBacked(s, ev, fetched).store;
    BackedWrites(s, ev, fetched, p, k);
    hide *;
    BackedUnmarked(s, op, p, k);
    KeepsDispute(s, op, p, k, st);
    if OnlyLoses(s.store, st, CandidateOf(p), k) {
      KeepsCandidate(s, op, p, k, st);
    } else {
      var c :| GetPrefix(st, CandidateOf(p), k) == Some(Entry(s.number, CandidateData(c))) && Creates(s, op, p, k, c);
      NewFollows(s, op, p, k, c);
      WritesCandidate(s, op, p, k, st, c);
    }
  }

  lemma NewFollows(s: State, op: Op, p: ParaId, k: Hash, c: CandidateRecord)
    requires GetPrefix(s.store, CandidateOf(p), k).None? && Creates(s, op, p, k, c)
    ensures Follows(s, op, p, k, CandidateAt(s.store, p, k), Some(c)) && c.parachainId == p
  {
  }

  lemma BackedUnmarked(s: State, op: Op, p: ParaId, k: Hash)
    requires op.Candidate? && op.ev.eventType.Backed?
    ensures Unmarked(s, op, p, k) && !Marks(s, op, p, k, Conclusion)
  {
  }

  lemma BackedWrites(s: State, ev: CandidateEvent, fetched: Option<u32>, p: ParaId, k: Hash)
    requires ev.eventType.Backed?
    ensures var op, st := Candidate(ev, fetched), ProcessBacked(s, ev, fetched).store;
            && OnlyLoses(s.store, st, DisputeOf(p), k)
            && (OnlyLoses(s.store, st, CandidateOf(p), k) ||
                (GetPrefix(s.store, CandidateOf(p), k).None? &&
                 exists c :: GetPrefix(st, CandidateOf(p), k) == Some(Entry(s.number, CandidateData(c))) &&
                             Creates(s, op, p, k, c)))
  {
    var q, j := ev.parachainId, ev.candidateHash;
    var st := ReadOrFetch(PointerWritten(s, ev), ev.relayParent, fetched);
    var header := HeaderNumber(PointerWritten(s, ev), ev.relayParent, fetched);
    if !Stored(s.store.records, CandidateOf(q), j) && !Stored(s.store.records, CandidatesParachains, j) {
      BackedLoses(s, ev, fetched, CandidateOf(p), k);
      BackedLoses(s, ev, fetched, DisputeOf(p), k);
      if header.Some? {
        var e := Entry(s.number, CandidateData(NewRecord(s, ev, header.value)));
        hide *;
        NewCreates(s, ev, fetched);
        InsertMay(st, CandidateOf(q), j, e, CandidateOf(p), k);
        InsertMay(st, CandidateOf(q), j, e, DisputeOf(p), k);
        Loses(s.store, st, ProcessBacked(s, ev, fetched).store, CandidateOf(p), k);
        Loses(s.store, st, ProcessBacked(s, ev, fetched).store, DisputeOf(p), k);
      }
    }
  }

  lemma Loses(a: Store, b: Store, c: Store, q: Prefix, k: Hash)
    requires OnlyLoses(a, b, q, k)
    ensures OnlyLoses(b, c, q, k) ==> OnlyLoses(a, c, q, k)
  {
  }

  /** The record that an accepted backing writes. */
  lemma NewCreates(s: State, ev: CandidateEvent, fetched: Option<u32>)
    requires !Stored(s.store.records, CandidateOf(ev.parachainId), ev.candidateHash)
    requires !Stored(s.store.records, CandidatesParachains, ev.candidateHash) && ev.eventType.Backed?
    requires HeaderNumber(PointerWritten(s, ev), ev.relayParent, fetched).Some?
    ensures var st := ReadOrFetch(PointerWritten(s, ev), ev.relayParent, fetched);
            var c := NewRecord(s, ev, HeaderNumber(PointerWritten(s, ev), ev.relayParent, fetched).value);
            && ProcessBacked(s, ev, fetched).store ==
               InsertPrefix(st, CandidateOf(ev.parachainId), ev.candidateHash, Entry(s.number, CandidateData(c)))
            && Creates(s, Candidate(ev, fetched), ev.parachainId, ev.candidateHash, c)
            && GetPrefix(s.store, CandidateOf(ev.parachainId), ev.candidateHash).None?
  {
    hide InsertPrefix;
  }

  lemma OutcomeMoves(s: State, ev: CandidateEvent, fetched: Option<u32>, p: ParaId, k: Hash)
    requires FiledCandidate(s.store, p, k) && FiledDispute(s.store, p, k) && !ev.eventType.Backed?
    ensures CandidateMoves(s, Candidate(ev, fetched), p, k, ProcessOutcome(s, ev).store)
    ensures DisputeMoves(s, Candidate(ev, fetched), p, k, ProcessOutcome(s, ev).store)
  {
    var op, st := Candidate(ev, fetched), ProcessOutcome(s, ev).store;
    KeepsDispute(s, op, p, k, st);
    if p == ev.parachainId && k == ev.candidateHash && CandidateAt(s.store, p, k).Some? {
      var c := CandidateAt(s.store, p, k).value;
      var c' := if ev.eventType.Included? then c.(included := Some(s.number)) else c.(timedout := Some(s.number));
      hide Follows;
      assert GetPrefix(st, CandidateOf(p), k) == Some(Entry(s.number, CandidateData(c')));
      OutcomeFollows(s, op, p, k, c, c');
      WritesCandidate(s, op, p, k, st, c');
    } else {
      OutcomeElsewhere(s, op, p, k, st);
    }
  }

  lemma OutcomeFollows(s: State, op: Op, p: ParaId, k: Hash, c: CandidateRecord, c': CandidateRecord)
    requires op.Candidate? && !op.ev.eventType.Backed? && p == op.ev.parachainId && k == op.ev.candidateHash
    requires c' == if op.ev.eventType.Included? then c.(included := Some(s.number)) else c.(timedout := Some(s.number))
    ensures Follows(s, op, p, k, Some(c), Some(c'))
  {
  }

  /** An outcome of another candidate, or of one that is not stored. */
  lemma OutcomeElsewhere(s: State, op: Op, p: ParaId, k: Hash, st: Store)
    requires op.Candidate? && !op.ev.eventType.Backed? && FiledCandidate(s.store, p, k)
    requires p == op.ev.parachainId && k == op.ev.candidateHash ==> CandidateAt(s.store, p, k).None?
    requires OnlyLoses(s.store, st, CandidateOf(p), k)
    ensures CandidateMoves(s, op, p, k, st)
  {
    if p == op.ev.parachainId && k == op.ev.candidateHash {
      assert GetPrefix(s.store, CandidateOf(p), k).None?;
      hide Marks;
    } else {
      KeepsCandidate(s, op, p, k, st);
    }
  }

  /** What a hash leads to is the candidate filed under its para. */
  lemma LedIsFiled(s: State, k: Hash)
    requires Filed(s.store) && FindCandidate(s.store, k).Some?
    ensures var c := FindCandidate(s.store, k).value;
            && CandidateAt(s.store, c.parachainId, k) == Some(c)
            && forall p :: LeadsTo(s.store, p, k) <==> p == c.parachainId
  {
    var q := GetPrefix(s.store, CandidatesParachains, k).value.data.p;
    assert FiledCandidate(s.store, q, k);
  }

  /** A dispute event writes the dispute and the candidate of one para, or nothing. */
  lemma DisputeWrites(s: State, op: Op, p: ParaId, k: Hash, st: Store, c: CandidateRecord)
    requires Filed(s.store) && CandidateAt(s.store, p, k) == Some(c) && Marks(s, op, p, k, Disputed)
    requires var e := GetPrefix(st, CandidateOf(p), k);
             e.Some? ==> e == Some(Entry(s.number, CandidateData(c.(disputed := Some(DisputeMark(s, op))))))
    ensures CandidateMoves(s, op, p, k, st)
  {
    assert FiledCandidate(s.store, p, k);
    assert !Marks(s, op, p, k, Outcome(E.Included)) && !Marks(s, op, p, k, Outcome(E.TimedOut));
    hide Marks, Filed;
  }

  lemma InitiatedMoves(s: State, d: D.SubxtDispute, p: ParaId, k: Hash)
    requires Filed(s.store)
    ensures CandidateMoves(s, Initiated(d), p, k, ProcessInitiated(s, d).store)
    ensures DisputeMoves(s, Initiated(d), p, k, ProcessInitiated(s, d).store)
  {
    var op, j, st := Initiated(d), d.candidateHash, ProcessInitiated(s, d).store;
    var found, who := FindCandidate(s.store, j), Initiators(s, d);
    assert FiledCandidate(s.store, p, k) && FiledDispute(s.store, p, k);
    if found.Some? && who.Some? && !Stored(s.store.records, DisputeOf(found.value.parachainId), j) {
      FirstDisputeMoves(s, d, p, k);
    } else {
      assert st == s.store;
      if found.Some? {
        LedIsFiled(s, j);
      }
      KeepsCandidate(s, op, p, k, st);
      KeepsDispute(s, op, p, k, st);
    }
  }

  lemma FirstDisputeMoves(s: State, d: D.SubxtDispute, p: ParaId, k: Hash)
    requires Filed(s.store) && FindCandidate(s.store, d.candidateHash).Some? && Initiators(s, d).Some?
    requires !Stored(s.store.records, DisputeOf(FindCandidate(s.store, d.candidateHash).value.parachainId),
                     d.candidateHash)
    ensures CandidateMoves(s, Initiated(d), p, k, ProcessInitiated(s, d).store)
    ensures DisputeMoves(s, Initiated(d), p, k, ProcessInitiated(s, d).store)
  {
    var op, j, st := Initiated(d), d.candidateHash, ProcessInitiated(s, d).store;
    var c := FindCandidate(s.store, j).value;
    var info := NewDispute(s, d, c.parachainId, Initiators(s, d).value);
    hide *;
    FirstDisputeWrites(s, d, c, info, p, k);
    FirstDisputeMarks(s, d, p, k);
    if p == c.parachainId && k == j {
      DisputeWrites(s, op, p, k, st, c);
      NewDisputeMoves(s, op, p, k, st, info);
    } else {
      KeepsCandidate(s, op, p, k, st);
      KeepsDispute(s, op, p, k, st);
    }
  }

  lemma FirstDisputeMarks(s: State, d: D.SubxtDispute, p: ParaId, k: Hash)
    requires Filed(s.store) && FindCandidate(s.store, d.candidateHash).Some? && Initiators(s, d).Some?
    requires !Stored(s.store.records, DisputeOf(FindCandidate(s.store, d.candidateHash).value.parachainId),
                     d.candidateHash)
    ensures var c, op := FindCandidate(s.store, d.candidateHash).value, Initiated(d);
            && FiledCandidate(s.store, p, k) && FiledDispute(s.store, p, k) && !Marks(s, op, p, k, Conclusion)
            && if p == c.parachainId && k == d.candidateHash
               then && Marks(s, op, p, k, Disputed) && StartsDispute(s, op, p, k)
                    && CandidateAt(s.store, p, k) == Some(c)
                    && StartedBy(s, d, Initiators(s, d).value.0, Initiators(s, d).value.1)
               else Unmarked(s, op, p, k)
  {
    InitiatorsExactly(s, d);
    LedIsFiled(s, d.candidateHash);
    hide FindCandidate, Initiators, StartedBy;
  }

  lemma NewDisputeMoves(s: State, op: Op, p: ParaId, k: Hash, st: Store, info: DisputeInfo)
    requires StartsDispute(s, op, p, k) && Initiators(s, op.d).Some?
    requires info == NewDispute(s, op.d, p, Initiators(s, op.d).value)
    requires StartedBy(s, op.d, Initiators(s, op.d).value.0, Initiators(s, op.d).value.1)
    requires var e := GetPrefix(st, DisputeOf(p), k); e.Some? ==> e == Some(Entry(s.number, DisputeData(info)))
    ensures DisputeMoves(s, op, p, k, st)
  {
    hide StartedBy, Initiators;
  }

  /** A first dispute writes the dispute, which may evict, and then the candidate if it is still there. */
  lemma FirstDisputeWrites(s: State, d: D.SubxtDispute, c: CandidateRecord, info: DisputeInfo, p: ParaId, k: Hash)
    requires FindCandidate(s.store, d.candidateHash) == Some(c) && Initiators(s, d).Some?
    requires info == NewDispute(s, d, c.parachainId, Initiators(s, d).value)
    requires !Stored(s.store.records, DisputeOf(c.parachainId), d.candidateHash)
    ensures var q, j, st := c.parachainId, d.candidateHash, ProcessInitiated(s, d).store;
            var written, disputed := GetPrefix(st, CandidateOf(p), k), GetPrefix(st, DisputeOf(p), k);
            if p == q && k == j then
              && (written.Some? ==>
                  written == Some(Entry(s.number, CandidateData(c.(disputed := Some(DisputeMark(s, Initiated(d))))))))
              && (disputed.Some? ==> disputed == Some(Entry(s.number, DisputeData(info))))
            else OnlyLoses(s.store, st, CandidateOf(p), k) && OnlyLoses(s.store, st, DisputeOf(p), k)
  {
    var q, j, st := c.parachainId, d.candidateHash, ProcessInitiated(s, d).store;
    var e := Entry(s.number, DisputeData(info));
    var st1 := InsertPrefix(s.store, DisputeOf(q), j, e);
    var e' := Entry(s.number, CandidateData(c.(disputed := Some(DisputeMark(s, Initiated(d))))));
    assert st == ReplacePrefixed(st1, CandidateOf(q), j, e');
    hide ProcessInitiated, InsertPrefix, ReplacePrefixed, FindCandidate, Initiators, GetPrefix, DisputeMark, NewDispute;
    InsertMay(s.store, DisputeOf(q), j, e, DisputeOf(p), k);
    InsertMay(s.store, DisputeOf(q), j, e, CandidateOf(p), k);
    Overwrites(st1, CandidateOf(q), j, e', CandidateOf(p), k);
    Overwrites(st1, CandidateOf(q), j, e', DisputeOf(p), k);
  }

  lemma Overwrites(st: Store, q: Prefix, j: Hash, e: StorageEntry<Data>, q': Prefix, k: Hash)
    ensures GetPrefix(ReplacePrefixed(st, q, j, e), q', k) ==
            if q' == q && k == j && GetPrefix(st, q, j).Some? then Some(e) else GetPrefix(st, q', k)
  {
  }

  lemma ConcludedMoves(s: State, d: D.SubxtDispute, outcome: D.Outcome, p: ParaId, k: Hash)
    requires Filed(s.store)
    ensures CandidateMoves(s, Op.Concludes(d, outcome), p, k, ProcessConcluded(s, d, outcome).store)
    ensures DisputeMoves(s, Op.Concludes(d, outcome), p, k, ProcessConcluded(s, d, outcome).store)
  {
    var op, j, st := Op.Concludes(d, outcome), d.candidateHash, ProcessConcluded(s, d, outcome).store;
    assert FiledCandidate(s.store, p, k) && FiledDispute(s.store, p, k);
    if FindCandidate(s.store, j).Some? {
      EndedDisputeMoves(s, d, outcome, p, k);
    } else {
      KeepsCandidate(s, op, p, k, st);
      KeepsDispute(s, op, p, k, st);
    }
  }

  lemma EndedDisputeMoves(s: State, d: D.SubxtDispute, outcome: D.Outcome, p: ParaId, k: Hash)
    requires Filed(s.store) && FindCandidate(s.store, d.candidateHash).Some?
    ensures CandidateMoves(s, Op.Concludes(d, outcome), p, k, ProcessConcluded(s, d, outcome).store)
    ensures DisputeMoves(s, Op.Concludes(d, outcome), p, k, ProcessConcluded(s, d, outcome).store)
  {
    var op, j, st := Op.Concludes(d, outcome), d.candidateHash, ProcessConcluded(s, d, outcome).store;
    var c := FindCandidate(s.store, j).value;
    var q := c.parachainId;
    LedIsFiled(s, j);
    assert FiledCandidate(s.store, p, k) && FiledDispute(s.store, p, k) && FiledDispute(s.store, q, j);
    EndedDisputeWrites(s, d, outcome, p, k);
    hide FindCandidate, Filed, ProcessConcluded, FiledCandidate;
    if p == q && k == j {
      DisputeWrites(s, op, p, k, st, c);
    } else {
      KeepsCandidate(s, op, p, k, st);
      KeepsDispute(s, op, p, k, st);
    }
  }

  lemma EndedDisputeWrites(s: State, d: D.SubxtDispute, outcome: D.Outcome, p: ParaId, k: Hash)
    requires FindCandidate(s.store, d.candidateHash).Some?
    requires FiledDispute(s.store, FindCandidate(s.store, d.candidateHash).value.parachainId, d.candidateHash)
    requires Stored(s.store.records, CandidateOf(FindCandidate(s.store, d.candidateHash).value.parachainId),
                    d.candidateHash)
    ensures var c, op, st := FindCandidate(s.store, d.candidateHash).value, Op.Concludes(d, outcome),
                             ProcessConcluded(s, d, outcome).store;
            var written, before := GetPrefix(st, CandidateOf(p), k), DisputeAt(s.store, p, k);
            if p == c.parachainId && k == d.candidateHash then
              && (written.Some? ==>
                  written == Some(Entry(s.number, CandidateData(c.(disputed := Some(DisputeMark(s, op)))))))
              && GetPrefix(st, DisputeOf(p), k) ==
                 (if before.None? then None
                  else Some(Entry(s.number,
                                  DisputeData(before.value.(outcome := Some(outcome), concluded := Some(s.number))))))
            else OnlyLoses(s.store, st, CandidateOf(p), k) && OnlyLoses(s.store, st, DisputeOf(p), k)
  {
    var c, j := FindCandidate(s.store, d.candidateHash).value, d.candidateHash;
    var q, before := c.parachainId, DisputeAt(s.store, c.parachainId, j);
    var e := Entry(s.number, CandidateData(c.(disputed := Some(DisputeMark(s, Op.Concludes(d, outcome))))));
    var e' := if before.None? then e
              else Entry(s.number, DisputeData(before.value.(outcome := Some(outcome), concluded := Some(s.number))));
    var st := if before.None? then s.store else ReplacePrefixed(s.store, DisputeOf(q), j, e');
    assert ProcessConcluded(s, d, outcome).store == ReplacePrefixed(st, CandidateOf(q), j, e);
    assert before.Some? <==> GetPrefix(s.store, DisputeOf(q), j).Some?;
    assert GetPrefix(s.store, DisputeOf(p), k).None? ==> DisputeAt(s.store, p, k).None?;
    hide FindCandidate, ProcessConcluded, ReplacePrefixed, GetPrefix, DisputeAt, DisputeMark;
    Overwrites(s.store, DisputeOf(q), j, e', CandidateOf(p), k);
    Overwrites(s.store, DisputeOf(q), j, e', DisputeOf(p), k);
    Overwrites(st, CandidateOf(q), j, e, CandidateOf(p), k);
    Overwrites(st, CandidateOf(q), j, e, DisputeOf(p), k);
  }

  /** Every event moves every candidate's records as told. */
  lemma StepMoves(s: State, cfg: Config, op: Op, p: ParaId, k: Hash)
    requires Filed(s.store)
    ensures CandidateMoves(s, op, p, k, Step(s, cfg, op).store) && DisputeMoves(s, op, p, k, Step(s, cfg, op).store)
  {
    assert FiledCandidate(s.store, p, k) && FiledDispute(s.store, p, k);
    match op
    case Candidate(ev, fetched) =>
      if ev.eventType.Backed? {
        BackedMoves(s, ev, fetched, p, k);
      } else {
        OutcomeMoves(s, ev, fetched, p, k);
      }
    case Initiated(d) => InitiatedMoves(s, d, p, k);
    case Concludes(d, outcome) => ConcludedMoves(s, d, outcome, p, k);
    case _ => OthersMove(s, cfg, op, p, k);
  }

  lemma OthersMove(s: State, cfg: Config, op: Op, p: ParaId, k: Hash)
    requires Filed(s.store) && !op.Candidate? && !op.Initiated? && !op.Concludes?
    ensures CandidateMoves(s, op, p, k, Step(s, cfg, op).store) && DisputeMoves(s, op, p, k, Step(s, cfg, op).store)
  {
    assert FiledCandidate(s.store, p, k) && FiledDispute(s.store, p, k);
    OthersLose(s, cfg, op, CandidateOf(p), k);
    OthersLose(s, cfg, op, DisputeOf(p), k);
    OthersUnmarked(s, op, p, k);
    hide *;
    KeepsCandidate(s, op, p, k, Step(s, cfg, op).store);
    KeepsDispute(s, op, p, k, Step(s, cfg, op).store);
  }

  lemma OthersUnmarked(s: State, op: Op, p: ParaId, k: Hash)
    requires !op.Candidate? && !op.Initiated? && !op.Concludes?
    ensures Unmarked(s, op, p, k) && !Marks(s, op, p, k, Conclusion)
  {
  }

  lemma OthersLose(s: State, cfg: Config, op: Op, q: Prefix, k: Hash)
    requires !op.Candidate? && !op.Initiated? && !op.Concludes? && !IsOther(q)
    ensures OnlyLoses(s.store, Step(s, cfg, op).store, q, k)
  {
    if op.OtherWrite? && IsOther(op.prefix) {
      InsertMay(s.store, op.prefix, op.key, Entry(op.block, op.data), q, k);
    }
  }

  lemma {:induction false} RunFiled(cfg: Config, maxBlocks: nat, ops: seq<Op>)
    ensures Filed(Run(cfg, maxBlocks, ops).store)
  {
    if ops != [] {
      RunFiled(cfg, maxBlocks, Front(ops));
      hide Step;
      forall p, k
        ensures FiledCandidate(Run(cfg, maxBlocks, ops).store, p, k)
        ensures FiledDispute(Run(cfg, maxBlocks, ops).store, p, k)
      {
        StepMoves(Run(cfg, maxBlocks, Front(ops)), cfg, Last(ops), p, k);
      }
    }
  }

  /*** Over a run ***/

  /** The state that the event at `i` met. */
  ghost function Before(cfg: Config, maxBlocks: nat, ops: seq<Op>, i: nat): State
    requires i <= |ops|
  {
    Run(cfg, maxBlocks, ops[..i])
  }

  ghost predicate MarkedAt(cfg: Config, maxBlocks: nat, ops: seq<Op>, p: ParaId, k: Hash, m: Mark, i: nat)
    requires i < |ops|
  {
    Marks(Before(cfg, maxBlocks, ops, i), ops[i], p, k, m)
  }

  /** The last such event after step `j`. */
  ghost predicate LatestMark(cfg: Config, maxBlocks: nat, ops: seq<Op>, p: ParaId, k: Hash, m: Mark, j: nat, i: nat) {
    && j < i < |ops| && MarkedAt(cfg, maxBlocks, ops, p, k, m, i)
    && forall l :: i < l < |ops| ==> !MarkedAt(cfg, maxBlocks, ops, p, k, m, l)
  }

  ghost predicate NoMarkSince(cfg: Config, maxBlocks: nat, ops: seq<Op>, p: ParaId, k: Hash, m: Mark, j: nat) {
    forall l :: j < l < |ops| ==> !MarkedAt(cfg, maxBlocks, ops, p, k, m, l)
  }

  /** The height of the last such event since step `j`, or nothing when there was none. */
  ghost predicate HeightOf(cfg: Config, maxBlocks: nat, ops: seq<Op>, p: ParaId, k: Hash, m: Mark, j: nat,
                           height: Option<u32>) {
    match height
    case None => NoMarkSince(cfg, maxBlocks, ops, p, k, m, j)
    case Some(h) =>
      exists i: nat :: LatestMark(cfg, maxBlocks, ops, p, k, m, j, i) && Before(cfg, maxBlocks, ops, i).number == h
  }

  lemma MarkSnoc(cfg: Config, maxBlocks: nat, ops: seq<Op>, p: ParaId, k: Hash, m: Mark, j: nat)
    requires j < |ops| - 1
    ensures var s, op := Run(cfg, maxBlocks, Front(ops)), Last(ops);
            if Marks(s, op, p, k, m)
            then LatestMark(cfg, maxBlocks, ops, p, k, m, j, |ops| - 1) && Before(cfg, maxBlocks, ops, |ops| - 1) == s
            else NoNewMark(cfg, maxBlocks, ops, p, k, m, j)
  {
    hide Marks, Run, NoNewMark;
    assert ops[..|ops| - 1] == Front(ops);
    assert Before(cfg, maxBlocks, ops, |ops| - 1) == Run(cfg, maxBlocks, Front(ops));
    if !MarkedAt(cfg, maxBlocks, ops, p, k, m, |ops| - 1) {
      MarksStay(cfg, maxBlocks, ops, p, k, m, j);
    }
  }

  ghost predicate NoNewMark(cfg: Config, maxBlocks: nat, ops: seq<Op>, p: ParaId, k: Hash, m: Mark, j: nat)
    requires ops != []
  {
    && (NoMarkSince(cfg, maxBlocks, Front(ops), p, k, m, j) ==> NoMarkSince(cfg, maxBlocks, ops, p, k, m, j))
    && forall i: nat :: i < |ops| - 1 && LatestMark(cfg, maxBlocks, Front(ops), p, k, m, j, i) ==>
         LatestMark(cfg, maxBlocks, ops, p, k, m, j, i) && ops[i] == Front(ops)[i] &&
         Before(cfg, maxBlocks, ops, i) == Before(cfg, maxBlocks, Front(ops), i)
  }

  lemma MarksStay(cfg: Config, maxBlocks: nat, ops: seq<Op>, p: ParaId, k: Hash, m: Mark, j: nat)
    requires ops != [] && !MarkedAt(cfg, maxBlocks, ops, p, k, m, |ops| - 1)
    ensures NoNewMark(cfg, maxBlocks, ops, p, k, m, j)
  {
    hide Before, MarkedAt, LatestMark, NoMarkSince;
    if NoMarkSince(cfg, maxBlocks, Front(ops), p, k, m, j) {
      NoneStays(cfg, maxBlocks, ops, p, k, m, j);
    }
    forall i: nat | i < |ops| - 1 && LatestMark(cfg, maxBlocks, Front(ops), p, k, m, j, i)
      ensures LatestMark(cfg, maxBlocks, ops, p, k, m, j, i) && ops[i] == Front(ops)[i]
      ensures Before(cfg, maxBlocks, ops, i) == Before(cfg, maxBlocks, Front(ops), i)
    {
      LatestStays(cfg, maxBlocks, ops, p, k, m, j, i);
    }
  }

  lemma NoneStays(cfg: Config, maxBlocks: nat, ops: seq<Op>, p: ParaId, k: Hash, m: Mark, j: nat)
    requires ops != [] && !MarkedAt(cfg, maxBlocks, ops, p, k, m, |ops| - 1)
    requires NoMarkSince(cfg, maxBlocks, Front(ops), p, k, m, j)
    ensures NoMarkSince(cfg, maxBlocks, ops, p, k, m, j)
  {
    hide Before, MarkedAt;
    forall l | j < l < |ops|
      ensures !MarkedAt(cfg, maxBlocks, ops, p, k, m, l)
    {
      if l < |ops| - 1 {
        SameAt(cfg, maxBlocks, ops, p, k, m, l);
      }
    }
  }

  lemma LatestStays(cfg: Config, maxBlocks: nat, ops: seq<Op>, p: ParaId, k: Hash, m: Mark, j: nat, i: nat)
    requires ops != [] && !MarkedAt(cfg, maxBlocks, ops, p, k, m, |ops| - 1)
    requires LatestMark(cfg, maxBlocks, Front(ops), p, k, m, j, i)
    ensures LatestMark(cfg, maxBlocks, ops, p, k, m, j, i) && ops[i] == Front(ops)[i]
    ensures Before(cfg, maxBlocks, ops, i) == Before(cfg, maxBlocks, Front(ops), i)
  {
    hide Before, MarkedAt;
    SameAt(cfg, maxBlocks, ops, p, k, m, i);
    NoneStays(cfg, maxBlocks, ops, p, k, m, i);
  }

  lemma SameAt(cfg: Config, maxBlocks: nat, ops: seq<Op>, p: ParaId, k: Hash, m: Mark, l: nat)
    requires ops != [] && l < |ops| - 1
    ensures ops[l] == Front(ops)[l] && Before(cfg, maxBlocks, ops, l) == Before(cfg, maxBlocks, Front(ops), l)
    ensures MarkedAt(cfg, maxBlocks, ops, p, k, m, l) <==> MarkedAt(cfg, maxBlocks, Front(ops), p, k, m, l)
  {
    hide Marks, Run;
    assert Front(ops)[..l] == ops[..l];
  }

  lemma HeightSnoc(cfg: Config, maxBlocks: nat, ops: seq<Op>, p: ParaId, k: Hash, m: Mark, j: nat, height: Option<u32>)
    requires j < |ops| - 1 && HeightOf(cfg, maxBlocks, Front(ops), p, k, m, j, height)
    ensures var s := Run(cfg, maxBlocks, Front(ops));
            HeightOf(cfg, maxBlocks, ops, p, k, m, j, if Marks(s, Last(ops), p, k, m) then Some(s.number) else height)
  {
    MarkSnoc(cfg, maxBlocks, ops, p, k, m, j);
    hide Marks, Run, MarkedAt, Before, LatestMark, NoMarkSince;
  }

  /** The last dispute event since step `j`, as the candidate records it. */
  ghost predicate DisputedAs(cfg: Config, maxBlocks: nat, ops: seq<Op>, p: ParaId, k: Hash, j: nat,
                             disputed: Option<CandidateDisputed>) {
    match disputed
    case None => NoMarkSince(cfg, maxBlocks, ops, p, k, Disputed, j)
    case Some(cd) =>
      exists i: nat :: LatestMark(cfg, maxBlocks, ops, p, k, Disputed, j, i) &&
                       cd == DisputeMark(Before(cfg, maxBlocks, ops, i), ops[i])
  }

  /** The last conclusion since step `j`, as the dispute records it. */
  ghost predicate ConcludedAs(cfg: Config, maxBlocks: nat, ops: seq<Op>, p: ParaId, k: Hash, j: nat, d: DisputeInfo) {
    if d.outcome.None? then d.concluded.None? && NoMarkSince(cfg, maxBlocks, ops, p, k, Conclusion, j)
    else
      exists i: nat :: LatestMark(cfg, maxBlocks, ops, p, k, Conclusion, j, i) && ops[i].Concludes? &&
                       d.outcome == Some(ops[i].outcome) && d.concluded == Some(Before(cfg, maxBlocks, ops, i).number)
  }

  lemma DisputedSnoc(cfg: Config, maxBlocks: nat, ops: seq<Op>, p: ParaId, k: Hash, j: nat,
                     disputed: Option<CandidateDisputed>)
    requires j < |ops| - 1 && DisputedAs(cfg, maxBlocks, Front(ops), p, k, j, disputed)
    ensures var s, op := Run(cfg, maxBlocks, Front(ops)), Last(ops);
            DisputedAs(cfg, maxBlocks, ops, p, k, j,
                       if Marks(s, op, p, k, Disputed) then Some(DisputeMark(s, op)) else disputed)
  {
    MarkSnoc(cfg, maxBlocks, ops, p, k, Disputed, j);
    hide Marks, Run, MarkedAt, Before, LatestMark, NoMarkSince, DisputeMark;
  }

  lemma ConcludedSnoc(cfg: Config, maxBlocks: nat, ops: seq<Op>, p: ParaId, k: Hash, j: nat, d: DisputeInfo,
                      d': DisputeInfo)
    requires j < |ops| - 1 && ConcludedAs(cfg, maxBlocks, Front(ops), p, k, j, d)
    requires var s, op := Run(cfg, maxBlocks, Front(ops)), Last(ops);
             if Marks(s, op, p, k, Conclusion)
             then op.Concludes? && d' == d.(outcome := Some(op.outcome), concluded := Some(s.number)) else d' == d
    ensures ConcludedAs(cfg, maxBlocks, ops, p, k, j, d')
  {
    MarkSnoc(cfg, maxBlocks, ops, p, k, Conclusion, j);
    hide Marks, Run, MarkedAt, Before, LatestMark, NoMarkSince;
  }

  /** The candidate was created by the backing at `j`, has been stored since, and says what happened since. */
  ghost predicate CandidateSince(cfg: Config, maxBlocks: nat, ops: seq<Op>, p: ParaId, k: Hash, c: CandidateRecord,
                                 j: nat) {
    && j < |ops| && CreatedAt(cfg, maxBlocks, ops, p, k, c, j) && StoredSince(cfg, maxBlocks, ops, p, k, j)
    && HeightOf(cfg, maxBlocks, ops, p, k, Outcome(E.Included), j, c.included)
    && HeightOf(cfg, maxBlocks, ops, p, k, Outcome(E.TimedOut), j, c.timedout)
    && DisputedAs(cfg, maxBlocks, ops, p, k, j, c.disputed)
  }

  ghost predicate CreatedAt(cfg: Config, maxBlocks: nat, ops: seq<Op>, p: ParaId, k: Hash, c: CandidateRecord, j: nat)
    requires j < |ops|
  {
    && CandidateAt(Before(cfg, maxBlocks, ops, j).store, p, k).None?
    && Creates(Before(cfg, maxBlocks, ops, j), ops[j], p, k, c.(included := None, timedout := None, disputed := None))
  }

  ghost predicate StoredSince(cfg: Config, maxBlocks: nat, ops: seq<Op>, p: ParaId, k: Hash, j: nat) {
    forall i :: j < i <= |ops| ==> CandidateAt(Before(cfg, maxBlocks, ops, i).store, p, k).Some?
  }

  /**
   A stored candidate says exactly what happened to it: it was written by an accepted backing and stored ever
   since, its heights are the relay heights of that backing and of the last inclusion and time-out since, and its
   dispute is the last accepted dispute event since; what did not happen is not recorded.
   */
  lemma {:induction false} CandidateRecorded(cfg: Config, maxBlocks: nat, ops: seq<Op>, p: ParaId, k: Hash)
    returns (j: nat)
    requires CandidateAt(Run(cfg, maxBlocks, ops).store, p, k).Some?
    ensures CandidateSince(cfg, maxBlocks, ops, p, k, CandidateAt(Run(cfg, maxBlocks, ops).store, p, k).value, j)
  {
    assert ops != [];
    var s, s' := Run(cfg, maxBlocks, Front(ops)), Run(cfg, maxBlocks, ops);
    var c := CandidateAt(s'.store, p, k).value;
    assert s' == Step(s, cfg, Last(ops));
    RunFiled(cfg, maxBlocks, Front(ops));
    StepMoves(s, cfg, Last(ops), p, k);
    assert ops[..|ops|] == ops && ops[..|ops| - 1] == Front(ops);
    hide Run, Step, Marks, Filed, FiledCandidate, FiledDispute, DisputeMoves, HeightOf, DisputedAs, NoMarkSince,
         CreatedAt, StoredSince;
    if CandidateAt(s.store, p, k).None? {
      j := |ops| - 1;
      CreatedNow(cfg, maxBlocks, ops, p, k, c);
    } else {
      var before := CandidateAt(s.store, p, k).value;
      j := CandidateRecorded(cfg, maxBlocks, Front(ops), p, k);
      HeightSnoc(cfg, maxBlocks, ops, p, k, Outcome(E.Included), j, before.included);
      HeightSnoc(cfg, maxBlocks, ops, p, k, Outcome(E.TimedOut), j, before.timedout);
      DisputedSnoc(cfg, maxBlocks, ops, p, k, j, before.disputed);
      StillStored(cfg, maxBlocks, ops, p, k, before, c, j);
    }
  }

  lemma CreatedNow(cfg: Config, maxBlocks: nat, ops: seq<Op>, p: ParaId, k: Hash, c: CandidateRecord)
    requires ops != []
    requires var s := Run(cfg, maxBlocks, Front(ops));
             CandidateAt(s.store, p, k).None? && Creates(s, Last(ops), p, k, c)
    requires c.included.None? && c.timedout.None? && c.disputed.None?
    requires CandidateAt(Run(cfg, maxBlocks, ops).store, p, k) == Some(c)
    ensures CandidateSince(cfg, maxBlocks, ops, p, k, c, |ops| - 1)
  {
    hide *;
    StoredNow(cfg, maxBlocks, ops, p, k, c);
    NothingSince(cfg, maxBlocks, ops, p, k, Outcome(E.Included));
    NothingSince(cfg, maxBlocks, ops, p, k, Outcome(E.TimedOut));
    NothingSince(cfg, maxBlocks, ops, p, k, Disputed);
    Untouched(cfg, maxBlocks, ops, p, k, c, |ops| - 1);
  }

  lemma StoredNow(cfg: Config, maxBlocks: nat, ops: seq<Op>, p: ParaId, k: Hash, c: CandidateRecord)
    requires ops != []
    requires var s := Run(cfg, maxBlocks, Front(ops));
             CandidateAt(s.store, p, k).None? && Creates(s, Last(ops), p, k, c)
    requires c.included.None? && c.timedout.None? && c.disputed.None?
    requires CandidateAt(Run(cfg, maxBlocks, ops).store, p, k) == Some(c)
    ensures CreatedAt(cfg, maxBlocks, ops, p, k, c, |ops| - 1) && StoredSince(cfg, maxBlocks, ops, p, k, |ops| - 1)
  {
    assert ops[..|ops| - 1] == Front(ops) && ops[..|ops|] == ops;
    assert c == c.(included := None, timedout := None, disputed := None);
    hide Run, Creates, CandidateAt;
  }

  lemma Untouched(cfg: Config, maxBlocks: nat, ops: seq<Op>, p: ParaId, k: Hash, c: CandidateRecord, j: nat)
    requires j < |ops| && CreatedAt(cfg, maxBlocks, ops, p, k, c, j) && StoredSince(cfg, maxBlocks, ops, p, k, j)
    requires c.included.None? && c.timedout.None? && c.disputed.None?
    requires NoMarkSince(cfg, maxBlocks, ops, p, k, Outcome(E.Included), j)
    requires NoMarkSince(cfg, maxBlocks, ops, p, k, Outcome(E.TimedOut), j)
    requires NoMarkSince(cfg, maxBlocks, ops, p, k, Disputed, j)
    ensures CandidateSince(cfg, maxBlocks, ops, p, k, c, j)
  {
    hide CreatedAt, StoredSince, NoMarkSince;
  }

  lemma NothingSince(cfg: Config, maxBlocks: nat, ops: seq<Op>, p: ParaId, k: Hash, m: Mark)
    requires ops != []
    ensures NoMarkSince(cfg, maxBlocks, ops, p, k, m, |ops| - 1)
  {
  }

  lemma StillStored(cfg: Config, maxBlocks: nat, ops: seq<Op>, p: ParaId, k: Hash, c: CandidateRecord,
                    c': CandidateRecord, j: nat)
    requires j < |ops| - 1 && CreatedAt(cfg, maxBlocks, Front(ops), p, k, c, j)
    requires StoredSince(cfg, maxBlocks, Front(ops), p, k, j) && CandidateAt(Run(cfg, maxBlocks, ops).store, p, k).Some?
    requires c' == c.(included := c'.included, timedout := c'.timedout, disputed := c'.disputed)
    ensures CreatedAt(cfg, maxBlocks, ops, p, k, c', j) && StoredSince(cfg, maxBlocks, ops, p, k, j)
  {
    hide Run, Creates;
    assert ops[..|ops|] == ops && Front(ops)[..j] == ops[..j];
    forall i | j < i <= |ops|
      ensures CandidateAt(Before(cfg, maxBlocks, ops, i).store, p, k).Some?
    {
      if i < |ops| {
        assert Front(ops)[..i] == ops[..i];
        assert Before(cfg, maxBlocks, ops, i) == Before(cfg, maxBlocks, Front(ops), i);
      }
    }
  }

  /** The dispute was opened by the event at `j`, has been stored since, and carries the last conclusion since. */
  ghost predicate DisputeSince(cfg: Config, maxBlocks: nat, ops: seq<Op>, p: ParaId, k: Hash, d: DisputeInfo, j: nat) {
    && j < |ops| && OpenedAt(cfg, maxBlocks, ops, p, k, d, j)
    && (forall i :: j < i <= |ops| ==> DisputeAt(Before(cfg, maxBlocks, ops, i).store, p, k).Some?)
    && ConcludedAs(cfg, maxBlocks, ops, p, k, j, d)
  }

  ghost predicate OpenedAt(cfg: Config, maxBlocks: nat, ops: seq<Op>, p: ParaId, k: Hash, d: DisputeInfo, j: nat)
    requires j < |ops|
  {
    Opens(Before(cfg, maxBlocks, ops, j), ops[j], p, k, d)
  }

  ghost predicate Opens(s: State, op: Op, p: ParaId, k: Hash, d: DisputeInfo) {
    && StartsDispute(s, op, p, k) && d.dispute == op.d && d.parachainId == p && d.initiated == s.number
    && StartedBy(s, op.d, d.initiatorIndices, d.sessionIndex)
  }

  /**
   A stored dispute says exactly what happened: it was opened by an accepted initiation, at its height, by the
   validators with an invalid statement in the inherent stored then; it has been stored since; and its outcome and
   height of conclusion are those of the last accepted conclusion since, or absent when there was none.
   */
  lemma {:induction false} DisputeRecorded(cfg: Config, maxBlocks: nat, ops: seq<Op>, p: ParaId, k: Hash)
    returns (j: nat)
    requires DisputeAt(Run(cfg, maxBlocks, ops).store, p, k).Some?
    ensures DisputeSince(cfg, maxBlocks, ops, p, k, DisputeAt(Run(cfg, maxBlocks, ops).store, p, k).value, j)
  {
    assert ops != [];
    var s, s' := Run(cfg, maxBlocks, Front(ops)), Run(cfg, maxBlocks, ops);
    var d := DisputeAt(s'.store, p, k).value;
    assert s' == Step(s, cfg, Last(ops));
    RunFiled(cfg, maxBlocks, Front(ops));
    StepMoves(s, cfg, Last(ops), p, k);
    hide Run, Step, Filed, FiledCandidate, FiledDispute, CandidateMoves, ConcludedAs, OpenedAt, StartsDispute,
         StartedBy;
    if DisputeAt(s.store, p, k).None? {
      j := |ops| - 1;
      OpenedNow(cfg, maxBlocks, ops, p, k, d);
    } else {
      j := DisputeRecorded(cfg, maxBlocks, Front(ops), p, k);
      ConcludedSnoc(cfg, maxBlocks, ops, p, k, j, DisputeAt(s.store, p, k).value, d);
      StillOpen(cfg, maxBlocks, ops, p, k, DisputeAt(s.store, p, k).value, d, j);
    }
  }

  lemma OpenedNow(cfg: Config, maxBlocks: nat, ops: seq<Op>, p: ParaId, k: Hash, d: DisputeInfo)
    requires ops != [] && Opens(Run(cfg, maxBlocks, Front(ops)), Last(ops), p, k, d)
    requires d.outcome.None? && d.concluded.None? && DisputeAt(Run(cfg, maxBlocks, ops).store, p, k) == Some(d)
    ensures DisputeSince(cfg, maxBlocks, ops, p, k, d, |ops| - 1)
  {
    hide *;
    NothingSince(cfg, maxBlocks, ops, p, k, Conclusion);
    NeverConcluded(cfg, maxBlocks, ops, p, k, |ops| - 1, d);
    OpenNow(cfg, maxBlocks, ops, p, k, d);
  }

  lemma OpenNow(cfg: Config, maxBlocks: nat, ops: seq<Op>, p: ParaId, k: Hash, d: DisputeInfo)
    requires ops != [] && Opens(Run(cfg, maxBlocks, Front(ops)), Last(ops), p, k, d)
    requires DisputeAt(Run(cfg, maxBlocks, ops).store, p, k) == Some(d)
    requires ConcludedAs(cfg, maxBlocks, ops, p, k, |ops| - 1, d)
    ensures DisputeSince(cfg, maxBlocks, ops, p, k, d, |ops| - 1)
  {
    assert ops[..|ops|] == ops && ops[..|ops| - 1] == Front(ops);
    hide Run, Opens, DisputeAt, ConcludedAs;
  }

  lemma NeverConcluded(cfg: Config, maxBlocks: nat, ops: seq<Op>, p: ParaId, k: Hash, j: nat, d: DisputeInfo)
    requires NoMarkSince(cfg, maxBlocks, ops, p, k, Conclusion, j) && d.outcome.None? && d.concluded.None?
    ensures ConcludedAs(cfg, maxBlocks, ops, p, k, j, d)
  {
    hide NoMarkSince;
  }

  lemma StillOpen(cfg: Config, maxBlocks: nat, ops: seq<Op>, p: ParaId, k: Hash, d: DisputeInfo, d': DisputeInfo,
                  j: nat)
    requires j < |ops| - 1 && DisputeSince(cfg, maxBlocks, Front(ops), p, k, d, j)
    requires DisputeAt(Run(cfg, maxBlocks, ops).store, p, k).Some?
    requires d' == d.(outcome := d'.outcome, concluded := d'.concluded)
    ensures OpenedAt(cfg, maxBlocks, ops, p, k, d', j)
    ensures forall i :: j < i <= |ops| ==> DisputeAt(Before(cfg, maxBlocks, ops, i).store, p, k).Some?
  {
    hide Run, StartsDispute, StartedBy, ConcludedAs;
    assert ops[..|ops|] == ops && Front(ops)[..j] == ops[..j];
    forall i | j < i <= |ops|
      ensures DisputeAt(Before(cfg, maxBlocks, ops, i).store, p, k).Some?
    {
      if i < |ops| {
        assert Front(ops)[..i] == ops[..i];
        assert Before(cfg, maxBlocks, ops, i) == Before(cfg, maxBlocks, Front(ops), i);
      }
    }
  }

  /*** Headers and sessions ***/

  /** Some event up to now wrote this number under the header of the block, or fetched it as that block's number. */
  ghost predicate HeaderSeen(ops: seq<Op>, block: Hash, number: u32) {
    exists i :: 0 <= i < |ops| && GivesHeader(ops[i], block, number)
  }

  predicate GivesHeader(op: Op, block: Hash, number: u32) {
    || (op.OtherWrite? && op.prefix == RelayBlockHeader && op.key == block && op.data == HeaderData(number))
    || (op.Candidate? && op.ev.relayParent == block && op.fetched == Some(number))
  }

  lemma HeaderStep(s: State, cfg: Config, op: Op, block: Hash, number: u32)
    requires var e := GetPrefix(Step(s, cfg, op).store, RelayBlockHeader, block);
             e.Some? && e.value.data == HeaderData(number)
    ensures GivesHeader(op, block, number) ||
            var e := GetPrefix(s.store, RelayBlockHeader, block); e.Some? && e.value.data == HeaderData(number)
  {
    match op
    case Candidate(ev, fetched) =>
      if ev.eventType.Backed? {
        BackedHeader(s, ev, fetched, block);
      } else {
        OutcomeHeader(s, ev, block);
      }
    case Initiated(d) => InitiatedHeader(s, d, block);
    case Concludes(d, outcome) => ConcludedHeader(s, d, outcome, block);
    case OtherWrite(prefix, key, b, data) => InsertMay(s.store, prefix, key, Entry(b, data), RelayBlockHeader, block);
    case _ =>
  }

  lemma OutcomeHeader(s: State, ev: CandidateEvent, block: Hash)
    ensures OnlyLoses(s.store, ProcessOutcome(s, ev).store, RelayBlockHeader, block)
  {
  }

  lemma InitiatedHeader(s: State, d: D.SubxtDispute, block: Hash)
    ensures OnlyLoses(s.store, ProcessInitiated(s, d).store, RelayBlockHeader, block)
  {
    var found, who := FindCandidate(s.store, d.candidateHash), Initiators(s, d);
    if found.Some? && who.Some? {
      var p := found.value.parachainId;
      var e := Entry(s.number, DisputeData(NewDispute(s, d, p, who.value)));
      InsertMay(s.store, DisputeOf(p), d.candidateHash, e, RelayBlockHeader, block);
      hide FindCandidate, Initiators, InsertPrefix;
    }
  }

  lemma ConcludedHeader(s: State, d: D.SubxtDispute, outcome: D.Outcome, block: Hash)
    ensures OnlyLoses(s.store, ProcessConcluded(s, d, outcome).store, RelayBlockHeader, block)
  {
    hide FindCandidate;
  }

  lemma BackedHeader(s: State, ev: CandidateEvent, fetched: Option<u32>, block: Hash)
    requires ev.eventType.Backed?
    ensures OnlyLoses(s.store, ProcessBacked(s, ev, fetched).store, RelayBlockHeader, block) ||
            (block == ev.relayParent && fetched.Some? &&
             var e := GetPrefix(ProcessBacked(s, ev, fetched).store, RelayBlockHeader, block);
             e.Some? && e.value.data == HeaderData(fetched.value))
  {
    var written := PointerWritten(s, ev);
    var st := ReadOrFetch(written, ev.relayParent, fetched);
    var header := HeaderNumber(written, ev.relayParent, fetched);
    InsertMay(s.store, CandidatesParachains, ev.candidateHash, Entry(s.number, ParaOf(ev.parachainId)),
              RelayBlockHeader, block);
    if fetched.Some? {
      InsertMay(written, RelayBlockHeader, ev.relayParent, Entry(fetched.value, HeaderData(fetched.value)),
                RelayBlockHeader, block);
    }
    if header.Some? {
      InsertMay(st, CandidateOf(ev.parachainId), ev.candidateHash,
                Entry(s.number, CandidateData(NewRecord(s, ev, header.value))), RelayBlockHeader, block);
    }
    hide InsertPrefix, HeaderNumber;
  }

  /** A stored header says what some event gave for that block. */
  lemma {:induction false} HeaderRecorded(cfg: Config, maxBlocks: nat, ops: seq<Op>, block: Hash, number: u32)
    requires var e := GetPrefix(Run(cfg, maxBlocks, ops).store, RelayBlockHeader, block);
             e.Some? && e.value.data == HeaderData(number)
    ensures HeaderSeen(ops, block, number)
  {
    assert ops != [];
    HeaderStep(Run(cfg, maxBlocks, Front(ops)), cfg, Last(ops), block, number);
    hide Step;
    assert ops[|ops| - 1] == Last(ops);
    if !GivesHeader(Last(ops), block, number) {
      HeaderRecorded(cfg, maxBlocks, Front(ops), block, number);
      var i :| 0 <= i < |Front(ops)| && GivesHeader(Front(ops)[i], block, number);
      assert ops[i] == Front(ops)[i];
    }
  }

  /** The session named by the latest notice, 0 before the first. */
  ghost predicate LatestSession(ops: seq<Op>, session: u32) {
    || (session == 0 && forall i :: 0 <= i < |ops| ==> !ops[i].NewSession?)
    || exists i :: 0 <= i < |ops| && ops[i] == NewSession(session) && forall j :: i < j < |ops| ==> !ops[j].NewSession?
  }

  lemma {:induction false} SessionExactly(cfg: Config, maxBlocks: nat, ops: seq<Op>)
    ensures LatestSession(ops, Run(cfg, maxBlocks, ops).session)
  {
    if ops != [] {
      var s, op := Run(cfg, maxBlocks, Front(ops)), Last(ops);
      SessionExactly(cfg, maxBlocks, Front(ops));
      KeepsSession(s, cfg, op);
      hide Run, Step;
      SessionSnoc(ops, s.session);
    }
  }

  lemma SessionSnoc(ops: seq<Op>, session: u32)
    requires ops != [] && LatestSession(Front(ops), session)
    ensures LatestSession(ops, if Last(ops).NewSession? then Last(ops).index else session)
  {
    if Last(ops).NewSession? {
      assert ops[|ops| - 1] == NewSession(Last(ops).index);
    } else if i :| 0 <= i < |Front(ops)| && Front(ops)[i] == NewSession(session) &&
                   forall j :: i < j < |Front(ops)| ==> !Front(ops)[j].NewSession? {
      forall j | i < j < |ops|
        ensures !ops[j].NewSession?
      {
        assert j < |ops| - 1 ==> ops[j] == Front(ops)[j];
      }
      assert ops[i] == NewSession(session);
    } else {
      forall i | 0 <= i < |ops|
        ensures !ops[i].NewSession?
      {
        assert i < |ops| - 1 ==> ops[i] == Front(ops)[i];
      }
    }
  }

  lemma KeepsSession(s: State, cfg: Config, op: Op)
    ensures Step(s, cfg, op).session == if op.NewSession? then op.index else s.session
  {
    hide InsertPrefix, FindCandidate, Initiators, ActiveParas, EventsFor;
  }
}
