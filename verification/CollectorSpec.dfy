/**
 The collector as a value: the events accumulated at the current relay height, and the shared store.
 One step of a run is one chain event or one of the other store accesses that processing a head makes.
 */
module CollectorSpec {
  import opened Prelude
  import opened StoreSpec
  import D = Disputes
  import E = Decoders
  import I = Inherent
  import T = TrackerSpec

  type ParaId = nat
  type Author = nat

  datatype Prefix =
    | CandidateOf(p: ParaId)
    | CandidatesParachains
    | DisputeOf(p: ParaId)
    | RelayBlockHeader
    | InherentPrefix
    | OtherPrefix(id: nat)

  datatype CandidateDisputed = CandidateDisputed(disputed: u32, concluded: Option<(u32, D.Outcome)>)

  datatype CandidateRecord = CandidateRecord(
    parachainId: ParaId, backed: u32, coreIdx: nat, relayParent: Hash, relayParentNumber: u32,
    included: Option<u32>, timedout: Option<u32>, disputed: Option<CandidateDisputed>)

  datatype DisputeInfo = DisputeInfo(
    initiated: u32, initiatorIndices: seq<u32>, sessionIndex: u32, dispute: D.SubxtDispute, parachainId: ParaId,
    outcome: Option<D.Outcome>, concluded: Option<u32>)

  datatype Data =
    | ParaOf(p: ParaId)
    | CandidateData(c: CandidateRecord)
    | DisputeData(d: DisputeInfo)
    | HeaderData(number: u32)
    | InherentRecord(data: I.InherentData)
    | OtherData

  type Store = PrefixedStore<Hash, Prefix, Data>

  type CandidateEvent = E.CandidateEvent

  datatype NewHeadEvent = NewHeadEvent(
    number: u32, hashes: seq<Hash>, paraId: ParaId, seen: seq<Hash>, backed: seq<T.BackedCandidateInfo>,
    included: seq<Hash>, timedOut: seq<Hash>, disputesConcluded: seq<DisputeInfo>, authorsMissing: seq<Author>)

  /** One publication: the event sent for each para; the channels of one para all get the same event. */
  type Round = map<ParaId, NewHeadEvent>

  datatype State = State(
    number: u32,
    hashes: seq<Hash>,
    session: u32,
    authorsMissing: seq<Author>,
    seen: map<ParaId, seq<Hash>>,
    disputesSeen: map<ParaId, seq<DisputeInfo>>,
    backed: seq<T.BackedCandidateInfo>,
    included: seq<Hash>,
    timedOut: seq<Hash>,
    parasSeen: map<ParaId, u32>,
    store: Store,
    subscribed: seq<Round>,
    broadcast: seq<Round>)

  /** What does not change in a run: the subscribed paras, whether a broadcast channel is open, the stall limit. */
  datatype Config = Config(subscribers: set<ParaId>, broadcasting: bool, maxStall: u32)

  function Init(maxBlocks: nat): State {
    State(0, [], 0, [], map[], map[], [], [], [], map[], PrefixedStore(maxBlocks, None, map[], map[]), [], [])
  }

  /*** Publishing a relay height ***/

  function Concluded(ds: seq<DisputeInfo>): seq<DisputeInfo> {
    if ds == [] then []
    else if Last(ds).concluded.Some? then Concluded(Front(ds)) + [Last(ds)]
    else Concluded(Front(ds))
  }

  function HeadEvent(s: State, p: ParaId): NewHeadEvent {
    NewHeadEvent(s.number, s.hashes, p, GetList(s.seen, p), s.backed, s.included, s.timedOut,
                 Concluded(GetList(s.disputesSeen, p)), s.authorsMissing)
  }

  /** Subscribers of a para get the whole event; the broadcast leaves out the authors who missed their slots. */
  function EventFor(s: State, p: ParaId, whole: bool): NewHeadEvent {
    if whole then HeadEvent(s, p) else HeadEvent(s, p).(authorsMissing := [])
  }

  function EventsFor(s: State, paras: set<ParaId>, whole: bool): Round { map p | p in paras :: EventFor(s, p, whole) }

  /** The paras seen at this height join the broadcast set; those not seen for too long leave it. */
  function Stalled(s: State, last: u32, maxStall: u32): bool { WrappingSub(s.number, last) > maxStall }

  function Refreshed(s: State): map<ParaId, u32> {
    map p | p in s.seen.Keys + s.parasSeen.Keys :: if p in s.seen then s.number else s.parasSeen[p]
  }

  function ActiveParas(s: State, maxStall: u32): map<ParaId, u32> {
    var refreshed := Refreshed(s);
    map p | p in refreshed && !Stalled(s, refreshed[p], maxStall) :: refreshed[p]
  }

  /** One event on every channel of every subscribed para. */
  function Publish(s: State, cfg: Config): State {
    s.(subscribed := s.subscribed + [EventsFor(s, cfg.subscribers, true)])
  }

  /** The broadcast channel gets one event for each para of the refreshed set. */
  function PublishBroadcast(s: State, cfg: Config): State {
    var active := ActiveParas(s, cfg.maxStall);
    s.(parasSeen := active, broadcast := s.broadcast + [EventsFor(s, active.Keys, false)])
  }

  function StartHeight(s: State, number: u32, hash: Hash): State {
    s.(seen := map[], disputesSeen := map[], backed := [], included := [], timedOut := [], authorsMissing := [],
       number := number, hashes := [hash])
  }

  /** Publish the current height to every channel and start the next one with its first block. */
  function UpdateState(s: State, cfg: Config, number: u32, hash: Hash): State {
    var sent := Publish(s, cfg);
    StartHeight(if cfg.broadcasting then PublishBroadcast(sent, cfg) else sent, number, hash)
  }

  /** A head of a new height publishes the old one, a fork joins it, a lower one is refused. */
  function NewHead(s: State, cfg: Config, number: u32, hash: Hash): State {
    if number > s.number then UpdateState(s, cfg, number, hash)
    else if number == s.number then s.(hashes := s.hashes + [hash])
    else s
  }

  /*** Candidates ***/

  function Entry(number: u32, data: Data): StorageEntry<Data> { StorageEntry(Onchain, RecordTime(number, None), data) }

  function Push<V>(m: map<ParaId, seq<V>>, p: ParaId, v: V): map<ParaId, seq<V>> { m[p := GetList(m, p) + [v]] }

  function CandidateAt(st: Store, p: ParaId, k: Hash): Option<CandidateRecord> {
    match GetPrefix(st, CandidateOf(p), k)
    case Some(e) => if e.data.CandidateData? then Some(e.data.c) else None
    case None => None
  }

  /** The relay parent's header: from the store, or fetched from the node (`None` when the node has none either). */
  function HeaderNumber(st: Store, relayParent: Hash, fetched: Option<u32>): Option<u32> {
    match GetPrefix(st, RelayBlockHeader, relayParent)
    case Some(e) => if e.data.HeaderData? then Some(e.data.number) else None
    case None => fetched
  }

  /** A fetched header is stored under its own, older block. */
  ghost function ReadOrFetch(st: Store, relayParent: Hash, fetched: Option<u32>): Store {
    if !Stored(st.records, RelayBlockHeader, relayParent) && fetched.Some?
    then InsertPrefix(st, RelayBlockHeader, relayParent, Entry(fetched.value, HeaderData(fetched.value)))
    else st
  }

  function NewRecord(s: State, ev: CandidateEvent, relayParentNumber: u32): CandidateRecord {
    CandidateRecord(ev.parachainId, s.number, ev.coreIdx, ev.relayParent, relayParentNumber, None, None, None)
  }

  /** The first of up to three writes of a backing, each of which may evict a bucket of the store. */
  ghost function PointerWritten(s: State, ev: CandidateEvent): Store {
    InsertPrefix(s.store, CandidatesParachains, ev.candidateHash, Entry(s.number, ParaOf(ev.parachainId)))
  }

  ghost function RecordBacked(s: State, ev: CandidateEvent, relayParentNumber: u32): State {
    var p, k := ev.parachainId, ev.candidateHash;
    s.(store := InsertPrefix(s.store, CandidateOf(p), k,
                             Entry(s.number, CandidateData(NewRecord(s, ev, relayParentNumber)))),
       seen := Push(s.seen, p, k),
       backed := s.backed + [T.BackedCandidateInfo(k, ev.coreIdx, p)])
  }

  ghost function ProcessBacked(s: State, ev: CandidateEvent, fetched: Option<u32>): State {
    if Stored(s.store.records, CandidateOf(ev.parachainId), ev.candidateHash) ||
       Stored(s.store.records, CandidatesParachains, ev.candidateHash) then s
    else
      var written := PointerWritten(s, ev);
      var before := s.(store := ReadOrFetch(written, ev.relayParent, fetched));
      match HeaderNumber(written, ev.relayParent, fetched)
      case None => before
      case Some(number) => RecordBacked(before, ev, number)
  }

  function ProcessOutcome(s: State, ev: CandidateEvent): State {
    var p, k := ev.parachainId, ev.candidateHash;
    match CandidateAt(s.store, p, k)
    case None => s
    case Some(c) =>
      var c' := if ev.eventType.Included? then c.(included := Some(s.number)) else c.(timedout := Some(s.number));
      s.(seen := Push(s.seen, p, k),
         included := if ev.eventType.Included? then s.included + [k] else s.included,
         timedOut := if ev.eventType.Included? then s.timedOut else s.timedOut + [k],
         store := ReplacePrefixed(s.store, CandidateOf(p), k, Entry(s.number, CandidateData(c'))))
  }

  ghost function ProcessCandidate(s: State, ev: CandidateEvent, fetched: Option<u32>): State {
    if ev.eventType.Backed? then ProcessBacked(s, ev, fetched) else ProcessOutcome(s, ev)
  }

  /*** Disputes ***/

  function FindCandidate(st: Store, k: Hash): Option<CandidateRecord> {
    match GetPrefix(st, CandidatesParachains, k)
    case Some(e) => if e.data.ParaOf? then CandidateAt(st, e.data.p, k) else None
    case None => None
  }

  /** The voters of the invalid statements, in order. */
  function InvalidVoters(statements: seq<(I.DisputeStatement, u32)>): seq<u32> {
    if statements == [] then []
    else if Last(statements).0.Invalid? then InvalidVoters(Front(statements)) + [Last(statements).1]
    else InvalidVoters(Front(statements))
  }

  function FindSet(sets: seq<I.DisputeStatementSet>, k: Hash): Option<I.DisputeStatementSet> {
    if sets == [] then None
    else if E.HashOf(sets[0].candidateHash) == k then Some(sets[0])
    else FindSet(sets[1..], k)
  }

  /** Who started a dispute, from the stored inherent of its block; `None` when that record does not decode. */
  function Initiators(s: State, d: D.SubxtDispute): Option<(seq<u32>, u32)> {
    match GetPrefix(s.store, InherentPrefix, d.relayParentBlock)
    case None => Some(([], s.session))
    case Some(e) =>
      if !e.data.InherentRecord? then None
      else
        match FindSet(e.data.data.disputes, d.candidateHash)
        case None => Some(([], s.session))
        case Some(found) => Some((InvalidVoters(found.statements), found.session))
  }

  function NewDispute(s: State, d: D.SubxtDispute, p: ParaId, who: (seq<u32>, u32)): DisputeInfo {
    DisputeInfo(s.number, who.0, who.1, d, p, None, None)
  }

  ghost function ProcessInitiated(s: State, d: D.SubxtDispute): State {
    match (FindCandidate(s.store, d.candidateHash), Initiators(s, d))
    case (Some(c), Some(who)) =>
      var p, k := c.parachainId, d.candidateHash;
      var info := NewDispute(s, d, p, who);
      var noted := s.(disputesSeen := Push(s.disputesSeen, p, info));
      if Stored(s.store.records, DisputeOf(p), k) then noted
      else
        var store1 := InsertPrefix(s.store, DisputeOf(p), k, Entry(s.number, DisputeData(info)));
        var c' := c.(disputed := Some(CandidateDisputed(s.number, None)));
        noted.(store := ReplacePrefixed(store1, CandidateOf(p), k, Entry(s.number, CandidateData(c'))))
    case _ => s
  }

  function ProcessConcluded(s: State, d: D.SubxtDispute, outcome: D.Outcome): State {
    match FindCandidate(s.store, d.candidateHash)
    case None => s
    case Some(c) =>
      var p, k := c.parachainId, d.candidateHash;
      var c' := c.(disputed := Some(CandidateDisputed(s.number, Some((s.number, outcome)))));
      var entry := Entry(s.number, CandidateData(c'));
      match GetPrefix(s.store, DisputeOf(p), k)
      case Some(e) =>
        if !e.data.DisputeData? then s
        else
          var info := e.data.d.(outcome := Some(outcome), concluded := Some(s.number));
          s.(disputesSeen := Push(s.disputesSeen, p, info),
             store := ReplacePrefixed(ReplacePrefixed(s.store, DisputeOf(p), k, Entry(s.number, DisputeData(info))),
                                      CandidateOf(p), k, entry))
      case None => s.(store := ReplacePrefixed(s.store, CandidateOf(p), k, entry))
  }

  /*** Runs ***/

  datatype Op =
    | Head(number: u32, hash: Hash)
    | Candidate(ev: CandidateEvent, fetched: Option<u32>)
    | Initiated(d: D.SubxtDispute)
    | Concludes(d: D.SubxtDispute, outcome: D.Outcome)
    | NewSession(index: u32)
    /** One author of the list that a processed head appends. */
    | AuthorMissed(author: Author)
    /** The rest of a head's processing: timestamps, inherents, session keys and so on. */
    | OtherWrite(prefix: Prefix, key: Hash, block: u32, data: Data)
    | OtherDelete(prefix: Prefix, key: Hash)

  /** Prefixes with linked records are written by candidates and disputes only. */
  predicate IsOther(prefix: Prefix) { prefix.RelayBlockHeader? || prefix.InherentPrefix? || prefix.OtherPrefix? }

  ghost function Step(s: State, cfg: Config, op: Op): State {
    match op
    case Head(number, hash) => NewHead(s, cfg, number, hash)
    case Candidate(ev, fetched) => ProcessCandidate(s, ev, fetched)
    case Initiated(d) => ProcessInitiated(s, d)
    case Concludes(d, outcome) => ProcessConcluded(s, d, outcome)
    case NewSession(index) => s.(session := index)
    case AuthorMissed(author) => s.(authorsMissing := s.authorsMissing + [author])
    case OtherWrite(prefix, key, block, data) =>
      if IsOther(prefix) then s.(store := InsertPrefix(s.store, prefix, key, Entry(block, data))) else s
    case OtherDelete(prefix, key) =>
      if IsOther(prefix) then s.(store := DeletePrefix(s.store, prefix, key)) else s
  }

  ghost function Run(cfg: Config, maxBlocks: nat, ops: seq<Op>): State {
    if ops == [] then Init(maxBlocks) else Step(Run(cfg, maxBlocks, Front(ops)), cfg, Last(ops))
  }
}
