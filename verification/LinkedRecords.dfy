/**
 The records the collector keeps about one candidate hash: the pointer to its para, the candidate and
 the dispute.  They are written one at a time and each write may evict a whole bucket of the store.
 */
module LinkedRecords {
  import opened Prelude
  import opened StoreSpec
  import opened CollectorSpec
  import D = Disputes
  import R = StoreRuns

  /** A candidate record is filed under its own para, and its outcomes do not precede its backing. */
  predicate ValidRecord(data: Data, p: ParaId, number: u32) {
    && data.CandidateData?
    && data.c.parachainId == p
    && data.c.backed <= number
    && (data.c.included.Some? ==> data.c.backed <= data.c.included.value)
    && (data.c.timedout.Some? ==> data.c.backed <= data.c.timedout.value)
  }

  predicate PointsTo(st: Store, k: Hash, p: ParaId) {
    var pointer := GetPrefix(st, CandidatesParachains, k);
    pointer.Some? && pointer.value.data == ParaOf(p)
  }

  /** A hash points to `p` exactly when `p` has the candidate; a dispute has its candidate. */
  predicate LinkedPara(st: Store, number: u32, k: Hash, p: ParaId) {
    var candidate, dispute := GetPrefix(st, CandidateOf(p), k), GetPrefix(st, DisputeOf(p), k);
    && (PointsTo(st, k, p) <==> candidate.Some?)
    && (candidate.Some? ==> ValidRecord(candidate.value.data, p, number))
    && (dispute.Some? ==> candidate.Some? && dispute.value.data.DisputeData?)
  }

  ghost predicate LinkedKey(st: Store, number: u32, k: Hash) {
    var pointer := GetPrefix(st, CandidatesParachains, k);
    && (pointer.Some? ==> pointer.value.data.ParaOf?)
    && forall p :: LinkedPara(st, number, k, p)
  }

  ghost predicate Linked(s: State) { forall k :: LinkedKey(s.store, s.number, k) }

  /*** One write, seen from one key ***/

  /** Writing `j` under `block` overflows the index, and the bucket that leaves holds `k`. */
  ghost predicate Evicts(st: Store, block: nat, j: Hash, k: Hash) {
    R.Pruned(AddKey(st.index, block, j), st.maxBlocks, k)
  }

  ghost predicate Wiped(st: Store, k: Hash) { forall q :: GetPrefix(st, q, k) == None }

  ghost predicate SameKey(st: Store, st': Store, k: Hash) {
    forall q :: !IsOther(q) ==> GetPrefix(st', q, k) == GetPrefix(st, q, k)
  }

  lemma InsertAt(st: Store, q: Prefix, j: Hash, e: StorageEntry<Data>, q': Prefix, k: Hash)
    requires !Stored(st.records, q, j)
    ensures GetPrefix(InsertPrefix(st, q, j, e), q', k) ==
            if Evicts(st, e.time.blockNumber, j, k) then None
            else if q' == q && k == j then Some(e)
            else GetPrefix(st, q', k)
  {
    R.InsertEffect(st, R.Insert(q, j, e), q', k);
  }

  lemma InsertPerKey(st: Store, q: Prefix, j: Hash, e: StorageEntry<Data>, k: Hash)
    requires !Stored(st.records, q, j)
    ensures var st' := InsertPrefix(st, q, j, e);
            if Evicts(st, e.time.blockNumber, j, k) then Wiped(st', k)
            else forall q' :: GetPrefix(st', q', k) == if q' == q && k == j then Some(e) else GetPrefix(st, q', k)
  {
    forall q'
      ensures GetPrefix(InsertPrefix(st, q, j, e), q', k) ==
              if Evicts(st, e.time.blockNumber, j, k) then None
              else if q' == q && k == j then Some(e)
              else GetPrefix(st, q', k)
    {
      InsertAt(st, q, j, e, q', k);
    }
  }

  lemma ReplacePerKey(st: Store, q: Prefix, j: Hash, e: StorageEntry<Data>, k: Hash)
    ensures forall q' :: GetPrefix(ReplacePrefixed(st, q, j, e), q', k) ==
                         if q' == q && k == j && Stored(st.records, q, j) then Some(e) else GetPrefix(st, q', k)
  {
  }

  lemma WipedIsLinked(st: Store, number: u32, k: Hash)
    requires Wiped(st, k)
    ensures LinkedKey(st, number, k)
  {
  }

  /** Heights only grow, so a key left alone stays linked. */
  lemma SameKeyStaysLinked(st: Store, st': Store, number: u32, number': u32, k: Hash)
    requires SameKey(st, st', k) && number <= number'
    requires LinkedKey(st, number, k)
    ensures LinkedKey(st', number', k)
  {
    forall p
      ensures LinkedPara(st', number', k, p)
    {
      assert LinkedPara(st, number, k, p);
    }
  }

  /** Writes to other prefixes, and writes of other keys, evict all records of a key together or none. */
  lemma ForeignInsertKeepsLinked(st: Store, number: u32, q: Prefix, j: Hash, e: StorageEntry<Data>, k: Hash)
    requires LinkedKey(st, number, k)
    requires IsOther(q) || j != k
    ensures LinkedKey(InsertPrefix(st, q, j, e), number, k)
  {
    if !Stored(st.records, q, j) {
      InsertPerKey(st, q, j, e, k);
      if Evicts(st, e.time.blockNumber, j, k) {
        WipedIsLinked(InsertPrefix(st, q, j, e), number, k);
      } else {
        SameKeyStaysLinked(st, InsertPrefix(st, q, j, e), number, number, k);
      }
    }
  }

  /*** Outcomes and disputes keep the links ***/

  lemma ReplaceKeepsLinked(st: Store, number: u32, p: ParaId, j: Hash, e: StorageEntry<Data>, k: Hash)
    requires LinkedKey(st, number, k) && ValidRecord(e.data, p, number)
    ensures LinkedKey(ReplacePrefixed(st, CandidateOf(p), j, e), number, k)
  {
    var st' := ReplacePrefixed(st, CandidateOf(p), j, e);
    ReplacePerKey(st, CandidateOf(p), j, e, k);
    forall q
      ensures LinkedPara(st', number, k, q)
    {
      assert LinkedPara(st, number, k, q);
    }
  }

  lemma ReplaceDisputeKeepsLinked(st: Store, number: u32, p: ParaId, j: Hash, e: StorageEntry<Data>, k: Hash)
    requires LinkedKey(st, number, k) && e.data.DisputeData?
    ensures LinkedKey(ReplacePrefixed(st, DisputeOf(p), j, e), number, k)
  {
    var st' := ReplacePrefixed(st, DisputeOf(p), j, e);
    ReplacePerKey(st, DisputeOf(p), j, e, k);
    forall q
      ensures LinkedPara(st', number, k, q)
    {
      assert LinkedPara(st, number, k, q);
    }
  }

  lemma InsertDisputeKeepsLinked(st: Store, number: u32, p: ParaId, j: Hash, e: StorageEntry<Data>, k: Hash)
    requires LinkedKey(st, number, k) && e.data.DisputeData?
    requires Stored(st.records, CandidateOf(p), j) && !Stored(st.records, DisputeOf(p), j)
    ensures LinkedKey(InsertPrefix(st, DisputeOf(p), j, e), number, k)
  {
    var st' := InsertPrefix(st, DisputeOf(p), j, e);
    if Evicts(st, e.time.blockNumber, j, k) {
      InsertPerKey(st, DisputeOf(p), j, e, k);
      WipedIsLinked(st', number, k);
    } else {
      InsertAt(st, DisputeOf(p), j, e, CandidatesParachains, k);
      forall q
        ensures LinkedPara(st', number, k, q)
      {
        assert LinkedPara(st, number, k, q);
        InsertAt(st, DisputeOf(p), j, e, CandidateOf(q), k);
        InsertAt(st, DisputeOf(p), j, e, DisputeOf(q), k);
      }
    }
  }

  /** What a lookup by hash finds is stored under the para it names. */
  lemma FoundIsStored(s: State, k: Hash)
    requires LinkedKey(s.store, s.number, k) && FindCandidate(s.store, k).Some?
    ensures var c := FindCandidate(s.store, k).value;
            && Stored(s.store.records, CandidateOf(c.parachainId), k)
            && ValidRecord(CandidateData(c), c.parachainId, s.number)
  {
    var p := GetPrefix(s.store, CandidatesParachains, k).value.data.p;
    assert LinkedPara(s.store, s.number, k, p);
  }

  lemma OutcomeKeepsLinked(s: State, ev: CandidateEvent, k: Hash)
    requires Linked(s)
    ensures LinkedKey(ProcessOutcome(s, ev).store, s.number, k)
  {
    var p, j := ev.parachainId, ev.candidateHash;
    assert LinkedKey(s.store, s.number, j) && LinkedPara(s.store, s.number, j, p);
    assert LinkedKey(s.store, s.number, k);
    match CandidateAt(s.store, p, j)
    case None =>
    case Some(c) =>
      var c' := if ev.eventType.Included? then c.(included := Some(s.number)) else c.(timedout := Some(s.number));
      ReplaceKeepsLinked(s.store, s.number, p, j, Entry(s.number, CandidateData(c')), k);
  }

  lemma InitiatedKeepsLinked(s: State, d: D.SubxtDispute, k: Hash)
    requires Linked(s)
    ensures LinkedKey(ProcessInitiated(s, d).store, s.number, k)
  {
    var j := d.candidateHash;
    assert LinkedKey(s.store, s.number, j) && LinkedKey(s.store, s.number, k);
    match (FindCandidate(s.store, j), Initiators(s, d))
    case (Some(c), Some(who)) =>
      FoundIsStored(s, j);
      var p := c.parachainId;
      if !Stored(s.store.records, DisputeOf(p), j) {
        var dispute := Entry(s.number, DisputeData(NewDispute(s, d, p, who)));
        InsertDisputeKeepsLinked(s.store, s.number, p, j, dispute, k);
        var c' := c.(disputed := Some(CandidateDisputed(s.number, None)));
        ReplaceKeepsLinked(InsertPrefix(s.store, DisputeOf(p), j, dispute), s.number, p, j,
                           Entry(s.number, CandidateData(c')), k);
      }
    case _ =>
  }

  lemma ConcludedKeepsLinked(s: State, d: D.SubxtDispute, outcome: D.Outcome, k: Hash)
    requires Linked(s)
    ensures LinkedKey(ProcessConcluded(s, d, outcome).store, s.number, k)
  {
    var j := d.candidateHash;
    assert LinkedKey(s.store, s.number, j) && LinkedKey(s.store, s.number, k);
    match FindCandidate(s.store, j)
    case None =>
    case Some(c) =>
      FoundIsStored(s, j);
      var p := c.parachainId;
      var c' := c.(disputed := Some(CandidateDisputed(s.number, Some((s.number, outcome)))));
      var entry := Entry(s.number, CandidateData(c'));
      match GetPrefix(s.store, DisputeOf(p), j)
      case Some(e) =>
        if e.data.DisputeData? {
          var dispute := Entry(s.number, DisputeData(e.data.d.(outcome := Some(outcome), concluded := Some(s.number))));
          ReplaceDisputeKeepsLinked(s.store, s.number, p, j, dispute, k);
          ReplaceKeepsLinked(ReplacePrefixed(s.store, DisputeOf(p), j, dispute), s.number, p, j, entry, k);
        }
      case None => ReplaceKeepsLinked(s.store, s.number, p, j, entry, k);
  }

  /*** Backing writes three records, and may lose the pointer in between ***/

  ghost predicate NewBacking(s: State, op: Op) {
    && op.Candidate? && op.ev.eventType.Backed?
    && !Stored(s.store.records, CandidateOf(op.ev.parachainId), op.ev.candidateHash)
    && !Stored(s.store.records, CandidatesParachains, op.ev.candidateHash)
  }

  /** The relay parent's header is neither stored nor known to the node. */
  ghost predicate HeaderMissing(s: State, op: Op)
    requires op.Candidate?
  {
    HeaderNumber(PointerWritten(s, op.ev), op.ev.relayParent, op.fetched).None?
  }

  /** Storing a fetched header evicts the records of `k`. */
  ghost predicate HeaderEvicts(st: Store, rp: Hash, fetched: Option<u32>, k: Hash) {
    !Stored(st.records, RelayBlockHeader, rp) && fetched.Some? && Evicts(st, fetched.value, rp, k)
  }

  /** Evicted by its own write, or by storing the fetched header. */
  ghost predicate PointerLost(s: State, op: Op)
    requires op.Candidate?
  {
    var k := op.ev.candidateHash;
    Evicts(s.store, s.number, k, k) || HeaderEvicts(PointerWritten(s, op.ev), op.ev.relayParent, op.fetched, k)
  }

  ghost predicate CandidateLost(s: State, op: Op)
    requires op.Candidate?
  {
    Evicts(ReadOrFetch(PointerWritten(s, op.ev), op.ev.relayParent, op.fetched), s.number, op.ev.candidateHash,
           op.ev.candidateHash)
  }

  /** An orphan pointer is left behind, or a candidate without one. */
  ghost predicate Breaks(s: State, op: Op) {
    && NewBacking(s, op)
    && if HeaderMissing(s, op) then !PointerLost(s, op) else PointerLost(s, op) && !CandidateLost(s, op)
  }

  /** Of the records of `k`, at most the pointer is stored. */
  ghost predicate OnlyPointer(st: Store, number: u32, p: ParaId, k: Hash, present: bool) {
    && (forall q :: GetPrefix(st, CandidateOf(q), k) == None && GetPrefix(st, DisputeOf(q), k) == None)
    && GetPrefix(st, CandidatesParachains, k) == if present then Some(Entry(number, ParaOf(p))) else None
  }

  lemma AfterPointerWrite(s: State, op: Op)
    requires NewBacking(s, op) && LinkedKey(s.store, s.number, op.ev.candidateHash)
    ensures var k := op.ev.candidateHash;
            OnlyPointer(PointerWritten(s, op.ev), s.number, op.ev.parachainId, k, !Evicts(s.store, s.number, k, k))
  {
    var p, k := op.ev.parachainId, op.ev.candidateHash;
    forall q
      ensures GetPrefix(s.store, CandidateOf(q), k) == None && GetPrefix(s.store, DisputeOf(q), k) == None
    {
      assert LinkedPara(s.store, s.number, k, q);
    }
    InsertPerKey(s.store, CandidatesParachains, k, Entry(s.number, ParaOf(p)), k);
  }

  lemma AfterHeader(st: Store, number: u32, p: ParaId, k: Hash, present: bool, rp: Hash, fetched: Option<u32>)
    requires OnlyPointer(st, number, p, k, present)
    ensures OnlyPointer(ReadOrFetch(st, rp, fetched), number, p, k, present && !HeaderEvicts(st, rp, fetched, k))
  {
    if !Stored(st.records, RelayBlockHeader, rp) && fetched.Some? {
      InsertPerKey(st, RelayBlockHeader, rp, Entry(fetched.value, HeaderData(fetched.value)), k);
    }
  }

  /** The store before the candidate is written. */
  lemma AfterPointer(s: State, op: Op)
    requires NewBacking(s, op) && LinkedKey(s.store, s.number, op.ev.candidateHash)
    ensures var st := ReadOrFetch(PointerWritten(s, op.ev), op.ev.relayParent, op.fetched);
            OnlyPointer(st, s.number, op.ev.parachainId, op.ev.candidateHash, !PointerLost(s, op))
  {
    var k := op.ev.candidateHash;
    AfterPointerWrite(s, op);
    AfterHeader(PointerWritten(s, op.ev), s.number, op.ev.parachainId, k, !Evicts(s.store, s.number, k, k),
                op.ev.relayParent, op.fetched);
  }

  /** For the backed key itself: the links hold afterwards exactly when none of the two breaks happens. */
  lemma OwnKeyExactly(s: State, op: Op)
    requires NewBacking(s, op) && LinkedKey(s.store, s.number, op.ev.candidateHash)
    ensures LinkedKey(ProcessBacked(s, op.ev, op.fetched).store, s.number, op.ev.candidateHash) <==> !Breaks(s, op)
  {
    var p, k := op.ev.parachainId, op.ev.candidateHash;
    var st := ReadOrFetch(PointerWritten(s, op.ev), op.ev.relayParent, op.fetched);
    AfterPointer(s, op);
    if HeaderMissing(s, op) {
      OrphanExactly(st, s.number, p, k, !PointerLost(s, op));
    } else {
      var header := HeaderNumber(PointerWritten(s, op.ev), op.ev.relayParent, op.fetched).value;
      CandidateWriteExactly(st, s.number, p, k, !PointerLost(s, op), NewRecord(s, op.ev, header));
    }
  }

  lemma OrphanExactly(st: Store, number: u32, p: ParaId, k: Hash, present: bool)
    requires OnlyPointer(st, number, p, k, present)
    ensures LinkedKey(st, number, k) <==> !present
  {
    assert present ==> !LinkedPara(st, number, k, p);
  }

  lemma CandidateWriteExactly(st: Store, number: u32, p: ParaId, k: Hash, present: bool, c: CandidateRecord)
    requires OnlyPointer(st, number, p, k, present)
    requires ValidRecord(CandidateData(c), p, number)
    ensures LinkedKey(InsertPrefix(st, CandidateOf(p), k, Entry(number, CandidateData(c))), number, k) <==>
            present || Evicts(st, number, k, k)
  {
    var e := Entry(number, CandidateData(c));
    var st' := InsertPrefix(st, CandidateOf(p), k, e);
    assert GetPrefix(st, CandidateOf(p), k) == None;
    InsertPerKey(st, CandidateOf(p), k, e, k);
    if Evicts(st, number, k, k) {
      WipedIsLinked(st', number, k);
    } else if present {
      forall q
        ensures LinkedPara(st', number, k, q)
      {
      }
    } else {
      assert !LinkedPara(st', number, k, p);
    }
  }

  lemma BackedKeepsOthers(s: State, ev: CandidateEvent, fetched: Option<u32>, k: Hash)
    requires Linked(s) && k != ev.candidateHash
    ensures LinkedKey(ProcessBacked(s, ev, fetched).store, s.number, k)
  {
    var p, j := ev.parachainId, ev.candidateHash;
    assert LinkedKey(s.store, s.number, k);
    ForeignInsertKeepsLinked(s.store, s.number, CandidatesParachains, j, Entry(s.number, ParaOf(p)), k);
    var written := PointerWritten(s, ev);
    if fetched.Some? {
      ForeignInsertKeepsLinked(written, s.number, RelayBlockHeader, ev.relayParent,
                               Entry(fetched.value, HeaderData(fetched.value)), k);
    }
    var header := HeaderNumber(written, ev.relayParent, fetched);
    if header.Some? {
      ForeignInsertKeepsLinked(ReadOrFetch(written, ev.relayParent, fetched), s.number, CandidateOf(p), j,
                               Entry(s.number, CandidateData(NewRecord(s, ev, header.value))), k);
    }
  }

  /** The link invariant is broken by one operation only: a backing that meets one of the two breaks. */
  lemma LinkedStepExactly(s: State, cfg: Config, op: Op)
    requires Linked(s)
    ensures Linked(Step(s, cfg, op)) <==> !Breaks(s, op)
  {
    var s' := Step(s, cfg, op);
    if NewBacking(s, op) {
      OwnKeyExactly(s, op);
      forall k | k != op.ev.candidateHash
        ensures LinkedKey(s'.store, s'.number, k)
      {
        BackedKeepsOthers(s, op.ev, op.fetched, k);
      }
    } else {
      forall k
        ensures LinkedKey(s'.store, s'.number, k)
      {
        OtherOpKeepsLinked(s, cfg, op, k);
      }
    }
  }

  lemma OtherOpKeepsLinked(s: State, cfg: Config, op: Op, k: Hash)
    requires Linked(s) && !NewBacking(s, op)
    ensures LinkedKey(Step(s, cfg, op).store, Step(s, cfg, op).number, k)
  {
    var s' := Step(s, cfg, op);
    assert LinkedKey(s.store, s.number, k);
    match op
    case Head(number, hash) => SameKeyStaysLinked(s.store, s'.store, s.number, s'.number, k);
    case Candidate(ev, fetched) => if !ev.eventType.Backed? { OutcomeKeepsLinked(s, ev, k); }
    case Initiated(d) => InitiatedKeepsLinked(s, d, k);
    case Concludes(d, outcome) => ConcludedKeepsLinked(s, d, outcome, k);
    case OtherWrite(q, j, block, data) =>
      if IsOther(q) { ForeignInsertKeepsLinked(s.store, s.number, q, j, Entry(block, data), k); }
    case _ => SameKeyStaysLinked(s.store, s'.store, s.number, s'.number, k);
  }

  predicate Concerns(op: Op, k: Hash) {
    match op
    case Candidate(ev, _) => ev.candidateHash == k
    case Initiated(d) => d.candidateHash == k
    case Concludes(d, _) => d.candidateHash == k
    case _ => false
  }

  /**
   What an orphan costs: while it is stored, no event about its candidate has any effect, not even a second backing.
   */
  lemma OrphanIsDeaf(s: State, cfg: Config, op: Op, later: Op)
    requires Linked(s) && Breaks(s, op) && HeaderMissing(s, op)
    requires Concerns(later, op.ev.candidateHash)
    ensures Step(Step(s, cfg, op), cfg, later) == Step(s, cfg, op)
  {
    var k := op.ev.candidateHash;
    var orphaned := Step(s, cfg, op);
    assert LinkedKey(s.store, s.number, k);
    AfterPointer(s, op);
    assert OnlyPointer(orphaned.store, s.number, op.ev.parachainId, k, true);
    hide Breaks, HeaderMissing, NewBacking, PointerLost;
    OnlyPointerIsDeaf(orphaned, cfg, op.ev.parachainId, k, later);
  }

  lemma OnlyPointerIsDeaf(s: State, cfg: Config, p: ParaId, k: Hash, later: Op)
    requires OnlyPointer(s.store, s.number, p, k, true) && Concerns(later, k)
    ensures Step(s, cfg, later) == s
  {
    assert GetPrefix(s.store, CandidateOf(p), k) == None && GetPrefix(s.store, CandidatesParachains, k).Some?;
    if later.Candidate? {
      assert GetPrefix(s.store, CandidateOf(later.ev.parachainId), k) == None;
    }
  }

  /*** Runs ***/

  ghost predicate LinkedThroughout(cfg: Config, maxBlocks: nat, ops: seq<Op>) {
    Linked(Run(cfg, maxBlocks, ops)) && (ops != [] ==> LinkedThroughout(cfg, maxBlocks, Front(ops)))
  }

  ghost predicate NeverBreaks(cfg: Config, maxBlocks: nat, ops: seq<Op>) {
    ops == [] || (NeverBreaks(cfg, maxBlocks, Front(ops)) && !Breaks(Run(cfg, maxBlocks, Front(ops)), Last(ops)))
  }

  /** A run keeps its records linked all along exactly when none of its backings meets a break. */
  lemma {:induction false} LinkedThroughoutExactly(cfg: Config, maxBlocks: nat, ops: seq<Op>)
    ensures LinkedThroughout(cfg, maxBlocks, ops) <==> NeverBreaks(cfg, maxBlocks, ops)
  {
    if ops == [] {
      assert forall k, p :: LinkedPara(Run(cfg, maxBlocks, ops).store, 0, k, p);
    } else {
      LinkedThroughoutExactly(cfg, maxBlocks, Front(ops));
      if LinkedThroughout(cfg, maxBlocks, Front(ops)) {
        LinkedStepExactly(Run(cfg, maxBlocks, Front(ops)), cfg, Last(ops));
      }
    }
  }

  /*** No break without a re-used hash ***/

  ghost predicate InBucket(st: Store, b: nat, k: Hash) { b in st.index && k in st.index[b] }

  /** The hash is in a bucket of the index or is the key of a record. */
  ghost predicate Touched(st: Store, k: Hash) {
    (exists b :: InBucket(st, b, k)) || (exists q :: Stored(st.records, q, k))
  }

  predicate Uses(op: Op, k: Hash) {
    match op
    case Candidate(ev, fetched) => (ev.eventType.Backed? && ev.candidateHash == k) || ev.relayParent == k
    case OtherWrite(q, j, block, data) => j == k
    case _ => false
  }

  ghost predicate Used(ops: seq<Op>, k: Hash) { exists op :: op in ops && Uses(op, k) }

  lemma InsertTouches(st: Store, q: Prefix, j: Hash, e: StorageEntry<Data>, k: Hash)
    ensures Touched(InsertPrefix(st, q, j, e), k) && k != j ==> Touched(st, k)
  {
    if !Stored(st.records, q, j) && Touched(InsertPrefix(st, q, j, e), k) && k != j {
      var st' := InsertPrefix(st, q, j, e);
      if b :| InBucket(st', b, k) {
        InsertedBuckets(st, q, j, e, b, k);
      } else {
        var q' :| Stored(st'.records, q', k);
        InsertPerKey(st, q, j, e, k);
        assert GetPrefix(st', q', k).Some? && GetPrefix(st, q', k).Some?;
      }
    }
  }

  lemma InsertedBuckets(st: Store, q: Prefix, j: Hash, e: StorageEntry<Data>, b: nat, k: Hash)
    ensures InBucket(InsertPrefix(st, q, j, e), b, k) && k != j ==> InBucket(st, b, k)
  {
    InsertIndex(st, q, j, e);
  }

  lemma ReplaceTouches(st: Store, q: Prefix, j: Hash, e: StorageEntry<Data>, k: Hash)
    requires Touched(ReplacePrefixed(st, q, j, e), k)
    ensures Touched(st, k)
  {
    var st' := ReplacePrefixed(st, q, j, e);
    if b :| InBucket(st', b, k) {
      assert InBucket(st, b, k);
    } else {
      var q' :| Stored(st'.records, q', k);
      assert Stored(st.records, q', k);
    }
  }

  lemma DisputesTouchNothingNew(s: State, d: D.SubxtDispute, outcome: D.Outcome, k: Hash)
    ensures Touched(ProcessInitiated(s, d).store, k) ==> Touched(s.store, k)
    ensures Touched(ProcessConcluded(s, d, outcome).store, k) ==> Touched(s.store, k)
  {
    var j := d.candidateHash;
    match FindCandidate(s.store, j)
    case None =>
    case Some(c) =>
      assert Stored(s.store.records, CandidatesParachains, j);
      var p := c.parachainId;
      var who := Initiators(s, d).GetOr(([], 0));
      var dispute := Entry(s.number, DisputeData(NewDispute(s, d, p, who)));
      var disputed := Entry(s.number, CandidateData(c.(disputed := Some(CandidateDisputed(s.number, None)))));
      var st := InsertPrefix(s.store, DisputeOf(p), j, dispute);
      if Touched(ProcessInitiated(s, d).store, k) && Initiators(s, d).Some? &&
          !Stored(s.store.records, DisputeOf(p), j) && k != j {
        ReplaceTouches(st, CandidateOf(p), j, disputed, k);
        InsertTouches(s.store, DisputeOf(p), j, dispute, k);
      }
      ConcludedTouches(s, d, outcome, k);
  }

  lemma ConcludedTouches(s: State, d: D.SubxtDispute, outcome: D.Outcome, k: Hash)
    ensures Touched(ProcessConcluded(s, d, outcome).store, k) ==> Touched(s.store, k)
  {
    var found := FindCandidate(s.store, d.candidateHash);
    if found.Some? && Touched(ProcessConcluded(s, d, outcome).store, k) {
      var c, p, j := found.value, found.value.parachainId, d.candidateHash;
      var disputed := CandidateDisputed(s.number, Some((s.number, outcome)));
      var entry := Entry(s.number, CandidateData(c.(disputed := Some(disputed))));
      match GetPrefix(s.store, DisputeOf(p), j)
      case Some(e) =>
        if e.data.DisputeData? {
          var dispute := Entry(s.number, DisputeData(e.data.d.(outcome := Some(outcome), concluded := Some(s.number))));
          ReplaceTouches(ReplacePrefixed(s.store, DisputeOf(p), j, dispute), CandidateOf(p), j, entry, k);
          ReplaceTouches(s.store, DisputeOf(p), j, dispute, k);
        }
      case None => ReplaceTouches(s.store, CandidateOf(p), j, entry, k);
    }
  }

  lemma CandidateTouches(s: State, ev: CandidateEvent, fetched: Option<u32>, k: Hash)
    requires Touched(ProcessCandidate(s, ev, fetched).store, k) && !Uses(Candidate(ev, fetched), k)
    ensures Touched(s.store, k)
  {
    var p, j := ev.parachainId, ev.candidateHash;
    if !ev.eventType.Backed? {
      var c := CandidateAt(s.store, p, j);
      if c.Some? {
        var e := if ev.eventType.Included? then c.value.(included := Some(s.number))
            else c.value.(timedout := Some(s.number));
        ReplaceTouches(s.store, CandidateOf(p), j, Entry(s.number, CandidateData(e)), k);
      }
    } else if NewBacking(s, Candidate(ev, fetched)) {
      var written := PointerWritten(s, ev);
      var st := ReadOrFetch(written, ev.relayParent, fetched);
      var header := HeaderNumber(written, ev.relayParent, fetched);
      if header.Some? {
        InsertTouches(st, CandidateOf(p), j, Entry(s.number, CandidateData(NewRecord(s, ev, header.value))), k);
      }
      if fetched.Some? && !Stored(written.records, RelayBlockHeader, ev.relayParent) {
        InsertTouches(written, RelayBlockHeader, ev.relayParent, Entry(fetched.value, HeaderData(fetched.value)), k);
      }
      InsertTouches(s.store, CandidatesParachains, j, Entry(s.number, ParaOf(p)), k);
    }
  }

  /** Only hashes that an earlier operation used appear in the store. */
  lemma {:induction false} TouchedWasUsed(cfg: Config, maxBlocks: nat, ops: seq<Op>, k: Hash)
    requires Touched(Run(cfg, maxBlocks, ops).store, k)
    ensures Used(ops, k)
  {
    if ops != [] {
      var s, op := Run(cfg, maxBlocks, Front(ops)), Last(ops);
      if !Uses(op, k) {
        match op {
          case Candidate(ev, fetched) => CandidateTouches(s, ev, fetched, k);
          case Initiated(d) => DisputesTouchNothingNew(s, d, D.Valid, k);
          case Concludes(d, outcome) => DisputesTouchNothingNew(s, d, outcome, k);
          case OtherWrite(q, j, block, data) =>
            if IsOther(q) { InsertTouches(s.store, q, j, Entry(block, data), k); }
          case OtherDelete(q, j) => DeleteTouches(s.store, q, j, k);
          case _ =>
        }
        TouchedWasUsed(cfg, maxBlocks, Front(ops), k);
        var earlier :| earlier in Front(ops) && Uses(earlier, k);
        assert earlier in ops;
      }
    }
  }

  lemma DeleteTouches(st: Store, q: Prefix, j: Hash, k: Hash)
    ensures Touched(DeletePrefix(st, q, j), k) ==> Touched(st, k)
  {
    var st' := DeletePrefix(st, q, j);
    assert forall b :: InBucket(st', b, k) <==> InBucket(st, b, k);
    assert forall q' :: Stored(st'.records, q', k) ==> Stored(st.records, q', k);
  }

  /** The index is full of blocks newer than `height`. */
  ghost predicate FullAbove(index: Index<Hash>, n: nat, height: nat) {
    |index| == n && forall b :: b in index ==> height < b
  }

  ghost predicate OnlyIn(index: Index<Hash>, k: Hash, height: nat) {
    forall b :: b in index && k in index[b] ==> b == height
  }

  /** A write that evicts a hash filed under one height only evicts that height. */
  lemma EvictsItsHeight(index: Index<Hash>, n: nat, b: nat, j: Hash, k: Hash, height: nat)
    requires |index| <= n && OnlyIn(index, k, height) && (j == k ==> b == height)
    requires R.Pruned(AddKey(index, b, j), n, k)
    ensures FullAbove(R.TrimIndex(AddKey(index, b, j), n), n, height)
  {
    var grown := AddKey(index, b, j);
    R.TrimmedKeys(index, b, j, n);
    var oldest := Oldest(grown.Keys);
    assert oldest == height;
    assert |grown| <= |index| + 1 && |grown - {oldest}| == |grown| - 1 by {
      assert (grown - {oldest}).Keys == grown.Keys - {oldest};
      assert |grown - {oldest}| == |(grown - {oldest}).Keys|;
      assert |index| == |index.Keys|;
    }
  }

  lemma FullStays(index: Index<Hash>, n: nat, b: nat, j: Hash, height: nat)
    requires FullAbove(index, n, height)
    ensures FullAbove(R.TrimIndex(AddKey(index, b, j), n), n, height)
  {
    var grown := AddKey(index, b, j);
    R.TrimmedKeys(index, b, j, n);
    if b in index {
      assert grown.Keys == index.Keys && |grown| == |grown.Keys| && |index| == |index.Keys|;
    } else {
      assert |grown| == n + 1 by {
        assert |index| == |index.Keys|;
      }
      var oldest := Oldest(grown.Keys);
      assert (grown - {oldest}).Keys == grown.Keys - {oldest};
      assert |grown - {oldest}| == |(grown - {oldest}).Keys|;
      assert b <= height ==> oldest == b;
    }
  }

  lemma FullEvicts(index: Index<Hash>, n: nat, k: Hash, height: nat)
    requires FullAbove(index, n, height)
    ensures R.Pruned(AddKey(index, height, k), n, k)
  {
    var grown := AddKey(index, height, k);
    R.TrimmedKeys(index, height, k, n);
    assert |index| == |index.Keys|;
    assert Oldest(grown.Keys) == height;
  }

  ghost predicate Bounded(st: Store) { |st.index| <= st.maxBlocks }

  lemma InsertIndex(st: Store, q: Prefix, j: Hash, e: StorageEntry<Data>)
    ensures var st' := InsertPrefix(st, q, j, e);
            && st'.maxBlocks == st.maxBlocks
            && (!Stored(st.records, q, j) ==>
                st'.index == R.TrimIndex(AddKey(st.index, e.time.blockNumber, j), st.maxBlocks))
            && (Bounded(st) ==> Bounded(st'))
  {
    if !Stored(st.records, q, j) {
      R.InsertEffect(st, R.Insert(q, j, e), q, j);
      if Bounded(st) {
        TrimBounded(st.index, st.maxBlocks, e.time.blockNumber, j);
      }
    }
  }

  lemma TrimBounded(index: Index<Hash>, n: nat, b: nat, j: Hash)
    requires |index| <= n
    ensures |R.TrimIndex(AddKey(index, b, j), n)| <= n
  {
    var grown := AddKey(index, b, j);
    R.TrimmedKeys(index, b, j, n);
    assert |index| == |index.Keys| && |grown| <= |index| + 1;
    if |grown| > n {
      var oldest := Oldest(grown.Keys);
      assert (grown - {oldest}).Keys == grown.Keys - {oldest};
      assert |grown - {oldest}| == |(grown - {oldest}).Keys|;
    }
  }

  lemma BackedBounded(s: State, ev: CandidateEvent, fetched: Option<u32>)
    requires Bounded(s.store)
    ensures Bounded(ProcessBacked(s, ev, fetched).store)
  {
    var p, k := ev.parachainId, ev.candidateHash;
    InsertIndex(s.store, CandidatesParachains, k, Entry(s.number, ParaOf(p)));
    var written := PointerWritten(s, ev);
    if fetched.Some? {
      InsertIndex(written, RelayBlockHeader, ev.relayParent, Entry(fetched.value, HeaderData(fetched.value)));
    }
    var header := HeaderNumber(written, ev.relayParent, fetched);
    if header.Some? {
      InsertIndex(ReadOrFetch(written, ev.relayParent, fetched), CandidateOf(p), k,
                  Entry(s.number, CandidateData(NewRecord(s, ev, header.value))));
    }
  }

  lemma InitiatedBounded(s: State, d: D.SubxtDispute)
    requires Bounded(s.store)
    ensures Bounded(ProcessInitiated(s, d).store)
  {
    var found, who := FindCandidate(s.store, d.candidateHash), Initiators(s, d);
    if found.Some? && who.Some? {
      var p := found.value.parachainId;
      InsertIndex(s.store, DisputeOf(p), d.candidateHash, Entry(s.number, DisputeData(NewDispute(s, d, p, who.value))));
    }
  }

  lemma StepBounded(s: State, cfg: Config, op: Op)
    requires Bounded(s.store)
    ensures Bounded(Step(s, cfg, op).store)
  {
    match op
    case Candidate(ev, fetched) => if ev.eventType.Backed? { BackedBounded(s, ev, fetched); }
    case Initiated(d) => InitiatedBounded(s, d);
    case OtherWrite(q, j, block, data) => InsertIndex(s.store, q, j, Entry(block, data));
    case _ =>
  }

  ghost function Kept(index: Index<Hash>, n: nat, block: nat, j: Hash): Index<Hash> {
    R.TrimIndex(AddKey(index, block, j), n)
  }

  /** The index after the pointer and, if it had to be fetched, the header. */
  ghost function BeforeCandidate(index: Index<Hash>, n: nat, height: nat, k: Hash, rp: Hash,
                                 header: Option<u32>): Index<Hash> {
    var written := Kept(index, n, height, k);
    match header
    case None => written
    case Some(b) => Kept(written, n, b, rp)
  }

  lemma LostInIndex(index: Index<Hash>, n: nat, height: nat, k: Hash, rp: Hash, header: Option<u32>)
    requires |index| <= n && OnlyIn(index, k, height) && rp != k
    requires || R.Pruned(AddKey(index, height, k), n, k)
             || (header.Some? && R.Pruned(AddKey(Kept(index, n, height, k), header.value, rp), n, k))
    ensures R.Pruned(AddKey(BeforeCandidate(index, n, height, k, rp, header), height, k), n, k)
  {
    var written := Kept(index, n, height, k);
    if R.Pruned(AddKey(index, height, k), n, k) {
      EvictsItsHeight(index, n, height, k, k, height);
      if header.Some? {
        FullStays(written, n, header.value, rp, height);
      }
    } else {
      TrimBounded(index, n, height, k);
      EvictsItsHeight(written, n, header.value, rp, k, height);
    }
    FullEvicts(BeforeCandidate(index, n, height, k, rp, header), n, k, height);
  }

  /** A hash filed under no other height than the current one: if its pointer is lost, so is the candidate. */
  lemma LostTogether(s: State, op: Op)
    requires NewBacking(s, op) && Bounded(s.store) && op.ev.relayParent != op.ev.candidateHash
    requires OnlyIn(s.store.index, op.ev.candidateHash, s.number)
    ensures PointerLost(s, op) ==> CandidateLost(s, op)
  {
    var st, k, rp := s.store, op.ev.candidateHash, op.ev.relayParent;
    var written := PointerWritten(s, op.ev);
    var header := if Stored(written.records, RelayBlockHeader, rp) then None else op.fetched;
    InsertIndex(st, CandidatesParachains, k, Entry(s.number, ParaOf(op.ev.parachainId)));
    if header.Some? {
      InsertIndex(written, RelayBlockHeader, rp, Entry(header.value, HeaderData(header.value)));
    }
    assert ReadOrFetch(written, rp, op.fetched).index == BeforeCandidate(st.index, st.maxBlocks, s.number, k, rp,
                                                                         header);
    if PointerLost(s, op) {
      LostInIndex(st.index, st.maxBlocks, s.number, k, rp, header);
    }
  }

  /*** The design's promise ***/

  /** A new backing brings a hash no earlier operation used, and its relay parent is known. */
  ghost predicate FirstBacking(s: State, earlier: seq<Op>, op: Op) {
    NewBacking(s, op) ==>
      !Used(earlier, op.ev.candidateHash) && op.ev.relayParent != op.ev.candidateHash && !HeaderMissing(s, op)
  }

  ghost predicate NeverRebacked(cfg: Config, maxBlocks: nat, ops: seq<Op>) {
    ops == [] ||
    (NeverRebacked(cfg, maxBlocks, Front(ops)) && FirstBacking(Run(cfg, maxBlocks, Front(ops)), Front(ops), Last(ops)))
  }

  /**
   When no call fails for a missing header and no candidate is backed again after its records were
   evicted, pointer, candidate and dispute live and die together through the whole run, whatever the
   heights of the relay parents and however small the store.
   */
  lemma {:induction false} LinkedUnlessRebacked(cfg: Config, maxBlocks: nat, ops: seq<Op>)
    requires NeverRebacked(cfg, maxBlocks, ops)
    ensures LinkedThroughout(cfg, maxBlocks, ops) && Bounded(Run(cfg, maxBlocks, ops).store)
  {
    LinkedThroughoutExactly(cfg, maxBlocks, ops);
    if ops != [] {
      var s, op := Run(cfg, maxBlocks, Front(ops)), Last(ops);
      LinkedUnlessRebacked(cfg, maxBlocks, Front(ops));
      LinkedThroughoutExactly(cfg, maxBlocks, Front(ops));
      StepBounded(s, cfg, op);
      if NewBacking(s, op) {
        FreshKey(cfg, maxBlocks, Front(ops), op.ev.candidateHash, s.number);
        LostTogether(s, op);
      }
    }
  }

  lemma FreshKey(cfg: Config, maxBlocks: nat, ops: seq<Op>, k: Hash, height: nat)
    requires !Used(ops, k)
    ensures OnlyIn(Run(cfg, maxBlocks, ops).store.index, k, height)
  {
    var st := Run(cfg, maxBlocks, ops).store;
    if b :| b in st.index && k in st.index[b] {
      assert InBucket(st, b, k);
      TouchedWasUsed(cfg, maxBlocks, ops, k);
      assert false;
    }
  }

  /** A linked store files each candidate hash under one para only, and nothing of it outlives the candidate. */
  lemma OneParaPerHash(s: State, k: Hash, p: ParaId, q: ParaId)
    requires Linked(s)
    ensures Stored(s.store.records, CandidateOf(p), k) && Stored(s.store.records, CandidateOf(q), k) ==> p == q
    ensures Stored(s.store.records, DisputeOf(p), k) ==>
              FindCandidate(s.store, k).Some? && FindCandidate(s.store, k).value.parachainId == p
    ensures Stored(s.store.records, CandidatesParachains, k) <==> FindCandidate(s.store, k).Some?
  {
    assert LinkedKey(s.store, s.number, k);
    assert LinkedPara(s.store, s.number, k, p) && LinkedPara(s.store, s.number, k, q);
    var pointer := GetPrefix(s.store, CandidatesParachains, k);
    if pointer.Some? {
      assert LinkedPara(s.store, s.number, k, pointer.value.data.p);
    }
  }
}
