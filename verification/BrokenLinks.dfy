/** Runs in which the records of a candidate come apart: each break of `LinkedRecords` is reachable. */
module BrokenLinks {
  import opened Prelude
  import opened StoreSpec
  import opened CollectorSpec
  import opened LinkedRecords
  import D = Disputes
  import E = Decoders
  import R = StoreRuns

  lemma RunSnoc(cfg: Config, maxBlocks: nat, ops: seq<Op>, op: Op)
    ensures Run(cfg, maxBlocks, ops + [op]) == Step(Run(cfg, maxBlocks, ops), cfg, op)
  {
    assert Front(ops + [op]) == ops;
  }

  lemma InitIsLinked(maxBlocks: nat)
    ensures Linked(Init(maxBlocks))
  {
    assert forall k, p :: LinkedPara(Init(maxBlocks).store, 0, k, p);
  }

  /** Any first backing whose relay parent nobody knows leaves an orphan, in a store of any size. */
  lemma OrphanFromStart(cfg: Config, maxBlocks: nat, ev: CandidateEvent)
    requires maxBlocks > 0 && ev.eventType.Backed?
    ensures var s, op := Run(cfg, maxBlocks, []), Candidate(ev, None);
            HeaderMissing(s, op) && Breaks(s, op) && !Linked(Run(cfg, maxBlocks, [op]))
  {
    var s, op, k := Init(maxBlocks), Candidate(ev, None), ev.candidateHash;
    assert [] + [op] == [op];
    RunSnoc(cfg, maxBlocks, [], op);
    var grown := AddKey(s.store.index, s.number, k);
    assert grown.Keys == {s.number} && |grown| == |grown.Keys|;
    InsertAt(s.store, CandidatesParachains, k, Entry(s.number, ParaOf(ev.parachainId)), RelayBlockHeader,
             ev.relayParent);
    InitIsLinked(maxBlocks);
    LinkedStepExactly(s, cfg, op);
  }

  /*** Losing the pointer between two writes ***/

  const PARA: ParaId := 5

  /** Candidate 7 of `PARA`, backed on a relay parent that has to be fetched. */
  function Backing(relayParent: Hash, height: u32): Op {
    Candidate(E.CandidateEvent(7, relayParent, PARA, E.Backed, 0), Some(height))
  }

  function Rest(key: Hash, block: u32): Op { OtherWrite(OtherPrefix(0), key, block, OtherData) }

  /** Candidate 7 is backed at 10, disputed at 11, and evicted when blocks 13 and 15 are stored. */
  function Evicted(): seq<Op> {
    [] + [Head(10, 100)] + [Backing(8, 9)] + [Head(11, 101)] + [Initiated(D.SubxtDispute(20, 7))] +
    [Head(13, 102)] + [Rest(9, 13)] + [Head(15, 103)] + [Rest(10, 15)]
  }

  /** Three live blocks, as many as the store keeps. */
  ghost predicate Live(st: Store, a: nat, b: nat, c: nat) {
    st.maxBlocks == 3 && a < b < c && st.index.Keys == {a, b, c}
  }

  /** The bucket of block `b` holds key 7. */
  ghost predicate Filed(st: Store, b: nat) { b in st.index && 7 in st.index[b] }

  /** Keys from `bound` on are not stored. */
  ghost predicate FreshFrom(st: Store, bound: Hash) { forall q, k :: k >= bound ==> GetPrefix(st, q, k) == None }

  /** A write, as key 7 and the fresh keys see it. */
  ghost predicate Wrote(st: Store, st': Store, q: Prefix, j: Hash, e: StorageEntry<Data>, bound: Hash) {
    && (FreshFrom(st, bound) ==> FreshFrom(st', if j >= bound then j + 1 else bound))
    && forall q' :: GetPrefix(st', q', 7) ==
                    if Evicts(st, e.time.blockNumber, j, 7) then None
                    else if q' == q && j == 7 then Some(e)
                    else GetPrefix(st, q', 7)
  }

  lemma Writing(st: Store, q: Prefix, j: Hash, e: StorageEntry<Data>, bound: Hash)
    requires GetPrefix(st, q, j) == None
    ensures Wrote(st, InsertPrefix(st, q, j, e), q, j, e, bound)
  {
    var st' := InsertPrefix(st, q, j, e);
    forall q', k
      ensures GetPrefix(st', q', k) == if Evicts(st, e.time.blockNumber, j, k) then None
                                       else if q' == q && k == j then Some(e) else GetPrefix(st, q', k)
    {
      InsertAt(st, q, j, e, q', k);
    }
  }

  /** A write that leaves at most three blocks. */
  lemma Grow(st: Store, q: Prefix, j: Hash, e: StorageEntry<Data>, bound: Hash)
    requires GetPrefix(st, q, j) == None && |st.index.Keys + {e.time.blockNumber}| <= st.maxBlocks
    ensures var st' := InsertPrefix(st, q, j, e);
            && Wrote(st, st', q, j, e, bound) && !Evicts(st, e.time.blockNumber, j, 7)
            && st'.maxBlocks == st.maxBlocks && st'.index.Keys == st.index.Keys + {e.time.blockNumber}
            && forall b :: Filed(st', b) <==> Filed(st, b) || (b == e.time.blockNumber && j == 7)
  {
    R.TrimmedKeys(st.index, e.time.blockNumber, j, st.maxBlocks);
    InsertIndex(st, q, j, e);
    Writing(st, q, j, e, bound);
  }

  /** A write under a new block that is not the oldest evicts the oldest. */
  lemma Overflow(st: Store, a: nat, b: nat, c: nat, q: Prefix, j: Hash, e: StorageEntry<Data>, bound: Hash)
    requires Live(st, a, b, c) && GetPrefix(st, q, j) == None && j != 7
    requires a < e.time.blockNumber && e.time.blockNumber !in {b, c}
    ensures var st', d := InsertPrefix(st, q, j, e), e.time.blockNumber;
            && Wrote(st, st', q, j, e, bound) && (Evicts(st, d, j, 7) <==> Filed(st, a))
            && (c < d ==> Live(st', b, c, d)) && (b < d < c ==> Live(st', b, d, c))
            && forall x :: x != a ==> (Filed(st', x) <==> Filed(st, x))
  {
    var d := e.time.blockNumber;
    var grown := AddKey(st.index, d, j);
    R.TrimmedKeys(st.index, d, j, 3);
    FourBlocks(a, b, c, d);
    assert IsLeast(a, grown.Keys) && Oldest(grown.Keys) == a;
    InsertIndex(st, q, j, e);
    Writing(st, q, j, e, bound);
  }

  lemma FourBlocks(a: nat, b: nat, c: nat, d: nat)
    requires a < b < c && a < d && d !in {b, c}
    ensures |{a, b, c} + {d}| == 4 && {a, b, c} + {d} - {a} == {b, c, d}
  {
    assert {a, b, c} + {d} == {a, b, c, d};
  }

  lemma HeadOnly(s: State, cfg: Config, number: u32, hash: Hash)
    requires number > s.number
    ensures Step(s, cfg, Head(number, hash)).store == s.store && Step(s, cfg, Head(number, hash)).number == number
  {
  }

  /** The three writes of a backing whose relay parent is fetched. */
  lemma ThreeWrites(s: State, cfg: Config, rp: Hash, height: u32)
    returns (st1: Store, st2: Store, e: StorageEntry<Data>)
    requires GetPrefix(s.store, CandidateOf(PARA), 7) == None && GetPrefix(s.store, CandidatesParachains, 7) == None
    requires GetPrefix(PointerWritten(s, Backing(rp, height).ev), RelayBlockHeader, rp) == None
    ensures st1 == InsertPrefix(s.store, CandidatesParachains, 7, Entry(s.number, ParaOf(PARA)))
    ensures st1 == PointerWritten(s, Backing(rp, height).ev)
    ensures st2 == InsertPrefix(st1, RelayBlockHeader, rp, Entry(height, HeaderData(height)))
    ensures st2 == ReadOrFetch(st1, rp, Some(height))
    ensures e.time.blockNumber == s.number && e.data.CandidateData? && e.data.c.parachainId == PARA
    ensures NewBacking(s, Backing(rp, height)) && !HeaderMissing(s, Backing(rp, height))
    ensures Step(s, cfg, Backing(rp, height)).number == s.number
    ensures Step(s, cfg, Backing(rp, height)).store == InsertPrefix(st2, CandidateOf(PARA), 7, e)
  {
    st1 := PointerWritten(s, Backing(rp, height).ev);
    st2 := ReadOrFetch(st1, rp, Some(height));
    e := Entry(s.number, CandidateData(NewRecord(s, Backing(rp, height).ev, height)));
  }

  lemma Found(st: Store, pointer: StorageEntry<Data>, candidate: StorageEntry<Data>)
    requires GetPrefix(st, CandidatesParachains, 7) == Some(pointer) && pointer.data == ParaOf(PARA)
    requires GetPrefix(st, CandidateOf(PARA), 7) == Some(candidate) && candidate.data.CandidateData?
    ensures FindCandidate(st, 7) == Some(candidate.data.c)
  {
  }

  /** What stage two of the run needs to know about stage one. */
  ghost predicate Tracked(st: Store) {
    && st.maxBlocks == 3 && st.index.Keys == {10} + {9} && FreshFrom(st, 9) && Filed(st, 10) && !Filed(st, 9)
    && FindCandidate(st, 7).Some? && FindCandidate(st, 7).value.parachainId == PARA
    && GetPrefix(st, DisputeOf(PARA), 7) == None
  }

  lemma StoresAt10(st: Store, pointer: StorageEntry<Data>, header: StorageEntry<Data>, candidate: StorageEntry<Data>)
    requires st == Init(3).store
    requires pointer.time.blockNumber == 10 && pointer.data == ParaOf(PARA) && header.time.blockNumber == 9 &&
        candidate.time.blockNumber == 10
    requires candidate.data.CandidateData? && candidate.data.c.parachainId == PARA
    ensures var st1 := InsertPrefix(st, CandidatesParachains, 7, pointer);
            var st2 := InsertPrefix(st1, RelayBlockHeader, 8, header);
            GetPrefix(st1, RelayBlockHeader, 8) == None && Tracked(InsertPrefix(st2, CandidateOf(PARA), 7, candidate))
  {
    var st1 := InsertPrefix(st, CandidatesParachains, 7, pointer);
    var st2 := InsertPrefix(st1, RelayBlockHeader, 8, header);
    hide *;
    PointerAt10(st, pointer);
    HeaderAt9(st1, pointer, header);
    CandidateAt10(st2, pointer, candidate);
  }

  /** Only the pointer of key 7 is stored. */
  ghost predicate Pointed(st: Store, keys: set<nat>, pointer: StorageEntry<Data>, bound: Hash) {
    && st.maxBlocks == 3 && st.index.Keys == keys && FreshFrom(st, bound) && Filed(st, 10) && !Filed(st, 9)
    && GetPrefix(st, CandidatesParachains, 7) == Some(pointer)
    && GetPrefix(st, CandidateOf(PARA), 7) == None && GetPrefix(st, DisputeOf(PARA), 7) == None
  }

  lemma PointerAt10(st: Store, pointer: StorageEntry<Data>)
    requires st == Init(3).store && pointer.time.blockNumber == 10
    ensures Pointed(InsertPrefix(st, CandidatesParachains, 7, pointer), {10}, pointer, 8)
    ensures GetPrefix(InsertPrefix(st, CandidatesParachains, 7, pointer), RelayBlockHeader, 8) == None
  {
    assert FreshFrom(st, 7) && st.index.Keys + {10} == {10} && !Filed(st, 9);
    hide InsertPrefix, Filed, Evicts;
    Grow(st, CandidatesParachains, 7, pointer, 7);
  }

  lemma HeaderAt9(st: Store, pointer: StorageEntry<Data>, header: StorageEntry<Data>)
    requires Pointed(st, {10}, pointer, 8) && header.time.blockNumber == 9
    ensures Pointed(InsertPrefix(st, RelayBlockHeader, 8, header), {10} + {9}, pointer, 9)
  {
    hide InsertPrefix, Filed, Evicts;
    assert |{10} + {9}| == 2;
    Grow(st, RelayBlockHeader, 8, header, 8);
  }

  lemma CandidateAt10(st: Store, pointer: StorageEntry<Data>, candidate: StorageEntry<Data>)
    requires Pointed(st, {10} + {9}, pointer, 9) && pointer.data == ParaOf(PARA) && candidate.time.blockNumber == 10
    requires candidate.data.CandidateData? && candidate.data.c.parachainId == PARA
    ensures Tracked(InsertPrefix(st, CandidateOf(PARA), 7, candidate))
  {
    hide InsertPrefix, Filed, Evicts, FindCandidate;
    assert |{10} + {9}| == 2 && {10} + {9} + {10} == {10} + {9};
    Grow(st, CandidateOf(PARA), 7, candidate, 9);
    Found(InsertPrefix(st, CandidateOf(PARA), 7, candidate), pointer, candidate);
  }

  lemma BackedAt10(s: State, cfg: Config)
    requires s.number == 10 && s.store == Init(3).store
    ensures Step(s, cfg, Backing(8, 9)).number == 10 && Tracked(Step(s, cfg, Backing(8, 9)).store)
  {
    var pointer, header := Entry(10, ParaOf(PARA)), Entry(9, HeaderData(9));
    var someRecord := Entry(10, CandidateData(NewRecord(s, Backing(8, 9).ev, 9)));
    assert PointerWritten(s, Backing(8, 9).ev) == InsertPrefix(s.store, CandidatesParachains, 7, pointer);
    assert GetPrefix(s.store, CandidateOf(PARA), 7) == None && GetPrefix(s.store, CandidatesParachains, 7) == None;
    assert someRecord.data.c.parachainId == PARA;
    hide *;
    StoresAt10(s.store, pointer, header, someRecord);
    var st1, st2, candidate := ThreeWrites(s, cfg, 8, 9);
    StoresAt10(s.store, pointer, header, candidate);
  }

  lemma DisputedAt11(s: State, cfg: Config)
    requires s.number == 11 && Tracked(s.store)
    ensures var s' := Step(s, cfg, Initiated(D.SubxtDispute(20, 7)));
            && s'.number == 11 && Live(s'.store, 9, 10, 11) && FreshFrom(s'.store, 9)
            && !Filed(s'.store, 9) && Filed(s'.store, 10) && Filed(s'.store, 11)
  {
    var d := D.SubxtDispute(20, 7);
    var c := FindCandidate(s.store, 7).value;
    assert Initiators(s, d) == Some(([], s.session));
    var dispute := Entry(11, DisputeData(NewDispute(s, d, PARA, ([], s.session))));
    var disputed := Entry(11, CandidateData(c.(disputed := Some(CandidateDisputed(11, None)))));
    var st := InsertPrefix(s.store, DisputeOf(PARA), 7, dispute);
    assert Step(s, cfg, Initiated(d)).store == ReplacePrefixed(st, CandidateOf(PARA), 7, disputed);
    assert Step(s, cfg, Initiated(d)).number == 11;
    hide Step, InsertPrefix, FindCandidate, Initiators, NewDispute;
    assert {10} + {9} + {11} == {9, 10, 11} && |{9, 10, 11}| == 3;
    Grow(s.store, DisputeOf(PARA), 7, dispute, 9);
    Replaced(st, CandidateOf(PARA), disputed);
  }

  lemma Replaced(st: Store, q: Prefix, e: StorageEntry<Data>)
    ensures var st' := ReplacePrefixed(st, q, 7, e);
            st'.index == st.index && st'.maxBlocks == st.maxBlocks && (FreshFrom(st, 9) ==> FreshFrom(st', 9))
  {
    ReplacePerKey(st, q, 7, e, 7);
    forall q', k | k >= 9
      ensures GetPrefix(ReplacePrefixed(st, q, 7, e), q', k) == GetPrefix(st, q', k)
    {
      ReplacePerKey(st, q, 7, e, k);
    }
  }

  lemma WrittenAt13(s: State, cfg: Config)
    requires s.number == 13 && Live(s.store, 9, 10, 11) && FreshFrom(s.store, 9)
    requires !Filed(s.store, 9) && Filed(s.store, 10) && Filed(s.store, 11)
    ensures var s' := Step(s, cfg, Rest(9, 13));
            && s'.number == 13 && Live(s'.store, 10, 11, 13) && FreshFrom(s'.store, 10)
            && Filed(s'.store, 10) && Filed(s'.store, 11) && !Filed(s'.store, 13)
  {
    assert !Filed(s.store, 13);
    assert Step(s, cfg, Rest(9, 13)) == s.(store := InsertPrefix(s.store, OtherPrefix(0), 9, Entry(13, OtherData)));
    hide Step, InsertPrefix, Live, Filed;
    Overflow(s.store, 9, 10, 11, OtherPrefix(0), 9, Entry(13, OtherData), 9);
  }

  lemma WrittenAt15(s: State, cfg: Config)
    requires s.number == 15 && Live(s.store, 10, 11, 13) && FreshFrom(s.store, 10)
    requires Filed(s.store, 10) && Filed(s.store, 11) && !Filed(s.store, 13)
    ensures var s' := Step(s, cfg, Rest(10, 15));
            && s'.number == 15 && Live(s'.store, 11, 13, 15) && FreshFrom(s'.store, 11) && Filed(s'.store, 11)
            && forall q :: GetPrefix(s'.store, q, 7) == None
  {
    assert Step(s, cfg, Rest(10, 15)) == s.(store := InsertPrefix(s.store, OtherPrefix(0), 10, Entry(15, OtherData)));
    hide Step, InsertPrefix, Live, Filed;
    Overflow(s.store, 10, 11, 13, OtherPrefix(0), 10, Entry(15, OtherData), 10);
  }

  lemma PointerAt15(st: Store, pointer: StorageEntry<Data>)
    requires Live(st, 11, 13, 15) && FreshFrom(st, 11) && Filed(st, 11)
    requires GetPrefix(st, CandidatesParachains, 7) == None && pointer.time.blockNumber == 15
    ensures var st1 := InsertPrefix(st, CandidatesParachains, 7, pointer);
            && Live(st1, 11, 13, 15) && FreshFrom(st1, 11) && Filed(st1, 11)
            && forall q :: q != CandidatesParachains ==> GetPrefix(st1, q, 7) == GetPrefix(st, q, 7)
  {
    assert {11, 13, 15} + {15} == {11, 13, 15} && |{11, 13, 15}| == 3;
    hide InsertPrefix, Filed, Evicts;
    Grow(st, CandidatesParachains, 7, pointer, 11);
  }

  lemma HeaderAt14(st: Store, header: StorageEntry<Data>)
    requires Live(st, 11, 13, 15) && FreshFrom(st, 11) && Filed(st, 11) && header.time.blockNumber == 14
    ensures Live(InsertPrefix(st, RelayBlockHeader, 11, header), 13, 14, 15)
    ensures HeaderEvicts(st, 11, Some(14), 7)
    ensures GetPrefix(InsertPrefix(st, RelayBlockHeader, 11, header), CandidateOf(PARA), 7) == None
  {
    assert GetPrefix(st, RelayBlockHeader, 11) == None;
    hide InsertPrefix, Filed, Evicts, Live, FreshFrom;
    Overflow(st, 11, 13, 15, RelayBlockHeader, 11, header, 11);
  }

  lemma CandidateStays(st: Store, candidate: StorageEntry<Data>)
    requires Live(st, 13, 14, 15) && GetPrefix(st, CandidateOf(PARA), 7) == None && candidate.time.blockNumber == 15
    ensures !Evicts(st, 15, 7, 7)
  {
    FullStore(st);
    hide InsertPrefix, Filed, Live;
    Grow(st, CandidateOf(PARA), 7, candidate, 12);
  }

  /** The pointer joins block 15; storing header 14 then evicts block 11, which still holds the key. */
  lemma BackedAgainAt15(s: State)
    requires s.number == 15 && Live(s.store, 11, 13, 15) && FreshFrom(s.store, 11) && Filed(s.store, 11)
    requires forall q :: GetPrefix(s.store, q, 7) == None
    ensures !HeaderMissing(s, Backing(11, 14)) && Breaks(s, Backing(11, 14))
  {
    var op, pointer, header := Backing(11, 14), Entry(15, ParaOf(PARA)), Entry(14, HeaderData(14));
    assert PointerWritten(s, op.ev) == InsertPrefix(s.store, CandidatesParachains, 7, pointer);
    hide InsertPrefix, Step, PointerWritten, ReadOrFetch, HeaderMissing, NewBacking, Filed, Evicts, Live, HeaderEvicts;
    PointerAt15(s.store, pointer);
    assert GetPrefix(PointerWritten(s, op.ev), RelayBlockHeader, 11) == None;
    hide FreshFrom;
    var st1, st2, candidate := ThreeWrites(s, Config({}, false, 0), 11, 14);
    HeaderAt14(st1, header);
    CandidateStays(st2, candidate);
  }

  lemma FullStore(st: Store)
    requires Live(st, 13, 14, 15)
    ensures |st.index.Keys + {15}| <= st.maxBlocks
  {
    assert {13, 14, 15} + {15} == {13, 14, 15} && |{13, 14, 15}| == 3;
  }

  /** The lost pointer is reachable: backing the evicted candidate again stores it without a pointer. */
  lemma PointerLostInRun(cfg: Config)
    ensures Breaks(Run(cfg, 3, Evicted()), Backing(11, 14)) && !HeaderMissing(Run(cfg, 3, Evicted()), Backing(11, 14))
  {
    var ops1 := [] + [Head(10, 100)];
    var ops2 := ops1 + [Backing(8, 9)];
    var ops3 := ops2 + [Head(11, 101)];
    var ops4 := ops3 + [Initiated(D.SubxtDispute(20, 7))];
    var ops5 := ops4 + [Head(13, 102)];
    var ops6 := ops5 + [Rest(9, 13)];
    var ops7 := ops6 + [Head(15, 103)];
    assert Run(cfg, 3, []) == Init(3) && Evicted() == ops7 + [Rest(10, 15)];
    hide *;
    RunSnoc(cfg, 3, [], Head(10, 100));
    RunSnoc(cfg, 3, ops1, Backing(8, 9));
    RunSnoc(cfg, 3, ops2, Head(11, 101));
    RunSnoc(cfg, 3, ops3, Initiated(D.SubxtDispute(20, 7)));
    RunSnoc(cfg, 3, ops4, Head(13, 102));
    RunSnoc(cfg, 3, ops5, Rest(9, 13));
    RunSnoc(cfg, 3, ops6, Head(15, 103));
    RunSnoc(cfg, 3, ops7, Rest(10, 15));
    InitHeight();
    HeadOnly(Init(3), cfg, 10, 100);
    BackedAt10(Run(cfg, 3, ops1), cfg);
    HeadOnly(Run(cfg, 3, ops2), cfg, 11, 101);
    DisputedAt11(Run(cfg, 3, ops3), cfg);
    HeadOnly(Run(cfg, 3, ops4), cfg, 13, 102);
    WrittenAt13(Run(cfg, 3, ops5), cfg);
    HeadOnly(Run(cfg, 3, ops6), cfg, 15, 103);
    WrittenAt15(Run(cfg, 3, ops7), cfg);
    BackedAgainAt15(Run(cfg, 3, Evicted()));
  }

  lemma InitHeight()
    ensures Init(3).number == 0
  {
  }
}
