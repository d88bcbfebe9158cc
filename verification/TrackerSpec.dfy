/**
 The parachain tracker as a value and one function per `set_*` pass.  Hash-map iteration order is
 the only thing abstracted: a pass that visits every core is a map comprehension, and a fork records
 that a candidate was included in it but not which one.  A panic of the source ends its run; here
 the missing bit or core counts as unset, so every run without a panic is covered.
 */
module TrackerSpec {
  import opened Prelude
  import opened BlockInfo

  /** `None` is a skipped slot. */
  type Entry = Option<ParachainBlockInfo>
  type Timestamp = nat
  datatype Block = Block(hash: Hash, num: u32, ts: Timestamp)
  datatype BlockWithoutHash = BlockWithoutHash(num: u32, ts: Timestamp)
  datatype BackingType = Sync | Async
  datatype Fork = Fork(relayHash: Hash, relayNumber: u32, backed: Option<Hash>, included: bool)
  datatype BackedCandidateInfo = BackedCandidateInfo(candidateHash: Hash, coreIdx: Core, paraId: nat)
  datatype CoreOccupied = Free | Scheduled | Occupied

  /** What the collector published about a relay height. */
  datatype NewHead = NewHead(number: u32, backed: seq<BackedCandidateInfo>, included: seq<Hash>)

  /** What the store holds about one relay block. */
  datatype BlockData = BlockData(
    ts: Timestamp,
    assignments: seq<(Core, seq<nat>)>,
    bitfields: seq<seq<bool>>,
    groups: seq<seq<nat>>,
    occupied: seq<CoreOccupied>)

  datatype Event =
    | EvBacked(h: Hash)
    | EvPending(h: Hash)
    | EvSlow(current: nat, max: nat)
    | EvIncluded(h: Hash, bits: nat, maxBits: nat)
    | EvDropped(h: Hash)
    | EvSkipped

  datatype State = State(
    paraId: nat,
    newSession: Option<u32>,
    candidates: map<Core, seq<Entry>>,
    cores: map<Core, seq<nat>>,
    current: Option<Block>,
    previous: Option<Block>,
    currentNonForkTs: Option<Timestamp>,
    lastNonForkTs: Option<Timestamp>,
    lastBackedAt: Option<u32>,
    backingType: BackingType,
    lastIncludedAt: Option<BlockWithoutHash>,
    previousIncludedAt: Option<BlockWithoutHash>,
    forks: seq<Fork>)

  function Init(paraId: nat): State {
    State(paraId, None, map[], map[], None, None, None, None, None, Sync, None, None, [])
  }

  predicate SameNumber(a: Option<Block>, b: Option<Block>) {
    a.Some? && b.Some? && a.value.num == b.value.num
  }

  predicate IsFork(s: State) { SameNumber(s.current, s.previous) }

  /*** Relay block, forks and core assignments ***/

  function SetRelayBlock(s: State, b: Block): State {
    var moved := s.(previous := s.current, current := Some(b));
    if IsFork(moved) then moved
    else moved.(lastNonForkTs := s.currentNonForkTs, currentNonForkTs := Some(b.ts))
  }

  function SetForks(s: State, b: Block): State {
    s.(forks := (if IsFork(s) then s.forks else []) + [Fork(b.hash, b.num, None, false)])
  }

  function OwnCores(assignments: seq<(Core, seq<nat>)>, paraId: nat): map<Core, seq<nat>> {
    if assignments == [] then map[]
    else
      var (core, ids) := Last(assignments);
      var before := OwnCores(Front(assignments), paraId);
      if paraId in ids then before[core := ids] else before
  }

  /*** Included candidates ***/

  function BitCount(bitfields: seq<seq<bool>>, core: Core): nat {
    if bitfields == [] then 0
    else BitCount(Front(bitfields), core) + (if core < |Last(bitfields)| && Last(bitfields)[core] then 1 else 0)
  }

  function Flatten<T>(groups: seq<seq<T>>): seq<T> {
    if groups == [] then [] else Flatten(Front(groups)) + Last(groups)
  }

  /** The availability bits of one block: the bitfields and the number of validators. */
  datatype Bits = Bits(fields: seq<seq<bool>>, max: nat) {
    function At(core: Core): BlockAvailability { BlockAvailability(BitCount(fields, core), max) }
  }

  predicate Hit(e: Entry, included: seq<Hash>) { e.Some? && e.value.candidateHash in included }

  function MarkEntry(e: Entry, included: seq<Hash>, bits: Bits): Entry {
    if Hit(e, included) then Some(e.value.SetIncluded().SetAvailability(bits.At(e.value.assignedCore))) else e
  }

  function MarkIncluded(v: seq<Entry>, included: seq<Hash>, bits: Bits): seq<Entry> {
    seq(|v|, i requires 0 <= i < |v| => MarkEntry(v[i], included, bits))
  }

  predicate AnyHit(v: seq<Entry>, included: seq<Hash>) { exists i :: 0 <= i < |v| && Hit(v[i], included) }

  predicate SomeIncluded(s: State, included: seq<Hash>) {
    exists c :: c in s.candidates && AnyHit(s.candidates[c], included)
  }

  function SetIncluded(s: State, included: seq<Hash>, bits: Bits): State
    requires s.forks != []
  {
    var marked := s.(candidates := map c | c in s.candidates :: MarkIncluded(s.candidates[c], included, bits));
    if !SomeIncluded(s, included) then marked
    else marked.(
      forks := Front(s.forks) + [Last(s.forks).(included := true)],
      previousIncludedAt := s.lastIncludedAt,
      lastIncludedAt := WithoutHash(s.current))
  }

  function WithoutHash(b: Option<Block>): Option<BlockWithoutHash> {
    if b.Some? then Some(BlockWithoutHash(b.value.num, b.value.ts)) else None
  }

  /*** Backed candidates and skipped slots ***/

  function Own(backed: seq<BackedCandidateInfo>, paraId: nat): seq<BackedCandidateInfo> {
    if backed == [] then []
    else if Last(backed).paraId == paraId then Own(Front(backed), paraId) + [Last(backed)]
    else Own(Front(backed), paraId)
  }

  function BackOne(s: State, num: u32, b: BackedCandidateInfo): State {
    s.(forks := if s.forks == [] then [] else Front(s.forks) + [Last(s.forks).(backed := Some(b.candidateHash))],
       backingType := if s.backingType.Sync? && s.lastBackedAt.Some? && WrappingSub(num, s.lastBackedAt.value) == 1
                      then Async else s.backingType,
       lastBackedAt := Some(num),
       candidates := s.candidates[b.coreIdx := GetList(s.candidates, b.coreIdx) +
                                  [Some(ParachainBlockInfo.New(b.candidateHash, b.coreIdx))]])
  }

  function BackAll(s: State, num: u32, own: seq<BackedCandidateInfo>): State {
    if own == [] then s else BackOne(BackAll(s, num, Front(own)), num, Last(own))
  }

  predicate UsedBy(own: seq<BackedCandidateInfo>, core: Core) {
    exists i :: 0 <= i < |own| && own[i].coreIdx == core
  }

  predicate HasBackedCandidate(s: State, core: Core) {
    || (exists i :: 0 <= i < |GetList(s.candidates, core)| && EntryBacked(GetList(s.candidates, core)[i]))
    || (exists f :: 0 <= f < |s.forks| && s.forks[f].backed.Some?)
  }

  predicate EntryBacked(e: Entry) { e.Some? && e.value.state.Backed? }

  predicate HasBackedOrIncludedCandidate(s: State, core: Core) {
    || (exists i :: 0 <= i < |GetList(s.candidates, core)| && GetList(s.candidates, core)[i].Some?)
    || (exists f :: 0 <= f < |s.forks| && (s.forks[f].backed.Some? || s.forks[f].included))
  }

  predicate Skips(s: State, core: Core, own: seq<BackedCandidateInfo>) {
    && core in s.cores
    && !UsedBy(own, core)
    && if s.backingType.Sync? then !HasBackedOrIncludedCandidate(s, core) else !HasBackedCandidate(s, core)
  }

  function SkipIdle(s: State, own: seq<BackedCandidateInfo>): State {
    s.(candidates := map c | c in s.candidates.Keys + s.cores.Keys && (c in s.candidates || Skips(s, c, own)) ::
                       if Skips(s, c, own) then GetList(s.candidates, c) + [None] else s.candidates[c])
  }

  function SetBacked(s: State, num: u32, backed: seq<BackedCandidateInfo>): State {
    var own := Own(backed, s.paraId);
    SkipIdle(BackAll(s, num, own), own)
  }

  /*** The current candidate of each assigned core ***/

  function OccupyLast(v: seq<Entry>, occupied: bool): seq<Entry> {
    if v != [] && EntryBacked(Last(v)) then Front(v) + [Some(Last(v).value.(coreOccupied := occupied))] else v
  }

  predicate IsOccupied(occupied: seq<CoreOccupied>, core: Core) {
    core < |occupied| && occupied[core].Occupied?
  }

  function SetCoreAssignment(s: State, occupied: seq<CoreOccupied>): State {
    s.(candidates := map c | c in s.candidates ::
                       if c in s.cores then OccupyLast(s.candidates[c], IsOccupied(occupied, c)) else s.candidates[c])
  }

  predicate JustBacked(s: State) {
    s.lastBackedAt.Some? && s.current.Some? && s.lastBackedAt.value == s.current.value.num
  }

  function PendLast(v: seq<Entry>, a: BlockAvailability): seq<Entry> {
    if v != [] && EntryBacked(Last(v)) then Front(v) + [Some(Last(v).value.SetPending().SetAvailability(a))] else v
  }

  function SetPendingAvailability(s: State, bits: Bits): State {
    s.(candidates := map c | c in s.candidates ::
                       if c in s.cores && !JustBacked(s) then PendLast(s.candidates[c], bits.At(c))
                       else s.candidates[c])
  }

  /*** Dropped candidates ***/

  predicate Open(e: Entry) { e.Some? && !e.value.state.Included? }

  predicate OpenAfter(v: seq<Entry>, i: nat) { exists j :: i < j < |v| && Open(v[j]) }

  function DropStale(v: seq<Entry>): seq<Entry> {
    seq(|v|, i requires 0 <= i < |v| =>
      if Open(v[i]) && OpenAfter(v, i) then Some(v[i].value.SetDropped()) else v[i])
  }

  function SetDropped(s: State): State {
    s.(candidates := map c | c in s.candidates :: DropStale(s.candidates[c]))
  }

  /*** One relay block: inject, report, reset ***/

  function Inject(s: State, hash: Hash, head: NewHead, data: Option<BlockData>): State {
    if data.None? then s
    else
      var d := data.value;
      var b := Block(hash, head.number, d.ts);
      var bits := Bits(d.bitfields, |Flatten(d.groups)|);
      var s1 := SetForks(SetRelayBlock(s, b), b);
      var s2 := SetIncluded(s1.(cores := OwnCores(d.assignments, s1.paraId)), head.included, bits);
      var s3 := SetBacked(s2, head.number, head.backed);
      SetDropped(SetPendingAvailability(SetCoreAssignment(s3, d.occupied), bits))
  }

  predicate SlowAvailability(s: State, core: Core) {
    var v := GetList(s.candidates, core);
    v != [] && Last(v).Some? && Last(v).value.coreOccupied && !JustBacked(s)
  }

  function EntryEvents(s: State, e: Entry): seq<Event> {
    if e.None? then [EvSkipped]
    else
      var c := e.value;
      match c.state
      case Backed => [EvBacked(c.candidateHash)]
      case PendingAvailability =>
        [EvPending(c.candidateHash)] +
        (if SlowAvailability(s, c.assignedCore) && c.availability.Some?
         then [EvSlow(c.availability.value.current, c.availability.value.max)] else [])
      case Included =>
        if c.availability.Some?
        then [EvIncluded(c.candidateHash, c.availability.value.current, c.availability.value.max)] else []
      case Dropped => [EvDropped(c.candidateHash)]
  }

  function ListEvents(s: State, v: seq<Entry>): seq<Event> {
    if v == [] then [] else ListEvents(s, Front(v)) + EntryEvents(s, Last(v))
  }

  /** The candidate events of `s` when the hash map is visited in `order`. */
  function Notify(s: State, order: seq<Core>): seq<Event> {
    if order == [] then [] else Notify(s, Front(order)) + ListEvents(s, GetList(s.candidates, Last(order)))
  }

  function KeepLive(v: seq<Entry>): seq<Entry> {
    if v == [] then []
    else if Last(v).Some? && Last(v).value.IsLive() then KeepLive(Front(v)) + [Last(v)]
    else KeepLive(Front(v))
  }

  function Reset(s: State): State {
    s.(newSession := None,
       candidates := map c | c in s.candidates && KeepLive(s.candidates[c]) != [] :: KeepLive(s.candidates[c]))
  }
}
