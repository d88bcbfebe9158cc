/**
 Runs of the tracker loop: every relay block is injected, reported and followed by a reset.
 The inputs are arbitrary: forks, missing inherents, any candidates in any order.
 */
module TrackerRuns {
  import opened Prelude
  import opened BlockInfo
  import opened TrackerSpec

  datatype Input =
    | RelayBlock(hash: Hash, head: NewHead, data: Option<BlockData>)
    | NewSession(index: u32)

  function Injected(s: State, i: Input): State {
    match i
    case RelayBlock(hash, head, data) => Inject(s, hash, head, data)
    case NewSession(index) => s.(newSession := Some(index))
  }

  function After(s: State, i: Input): State {
    if i.RelayBlock? then Reset(Injected(s, i)) else Injected(s, i)
  }

  function Run(paraId: nat, ins: seq<Input>): State {
    if ins == [] then Init(paraId) else After(Run(paraId, Front(ins)), Last(ins))
  }

  /** The state that `progress` sees after the last input. */
  function Reported(paraId: nat, ins: seq<Input>): State
    requires ins != []
  {
    Injected(Run(paraId, Front(ins)), Last(ins))
  }

  /** Nothing is reported before the first relay block, nor for a session notice. */
  predicate Reports(s: State, i: Input) { i.RelayBlock? && Injected(s, i).current.Some? }

  /*** Accounting: how often the hash `h` occurs ***/

  function HashOf(e: Entry, h: Hash): nat {
    if e.Some? && e.value.candidateHash == h then 1 else 0
  }

  function Hashes(v: seq<Entry>, h: Hash): nat {
    if v == [] then 0 else Hashes(Front(v), h) + HashOf(Last(v), h)
  }

  function IncludedOf(e: Event, h: Hash): nat { if e.EvIncluded? && e.h == h then 1 else 0 }
  function DroppedOf(e: Event, h: Hash): nat { if e.EvDropped? && e.h == h then 1 else 0 }

  function IncludedHashes(evs: seq<Event>, h: Hash): nat {
    if evs == [] then 0 else IncludedHashes(Front(evs), h) + IncludedOf(Last(evs), h)
  }

  function DroppedHashes(evs: seq<Event>, h: Hash): nat {
    if evs == [] then 0 else DroppedHashes(Front(evs), h) + DroppedOf(Last(evs), h)
  }

  /** How often one block's own backed candidates add `h` to `core`. */
  function PushedOn(own: seq<BackedCandidateInfo>, core: Core, h: Hash): nat {
    if own == [] then 0
    else PushedOn(Front(own), core, h) + (if Last(own).coreIdx == core && Last(own).candidateHash == h then 1 else 0)
  }

  function PushedBy(paraId: nat, i: Input): seq<BackedCandidateInfo> {
    if i.RelayBlock? && i.data.Some? then Own(i.head.backed, paraId) else []
  }

  function CoreList(s: State, core: Core): seq<Entry> { GetList(s.candidates, core) }

  function CoreEvents(s: State, core: Core): seq<Event> { ListEvents(s, CoreList(s, core)) }

  lemma {:induction false} IncludedConcat(a: seq<Event>, b: seq<Event>, h: Hash)
    ensures IncludedHashes(a + b, h) == IncludedHashes(a, h) + IncludedHashes(b, h)
    ensures DroppedHashes(a + b, h) == DroppedHashes(a, h) + DroppedHashes(b, h)
    decreases |b|
  {
    if b == [] {
      assert a + b == a;
    } else {
      assert Front(a + b) == a + Front(b) && Last(a + b) == Last(b);
      IncludedConcat(a, Front(b), h);
    }
  }

  lemma HashesSnoc(v: seq<Entry>, e: Entry, h: Hash)
    ensures Hashes(v + [e], h) == Hashes(v, h) + HashOf(e, h)
  {
    assert Front(v + [e]) == v;
  }

  lemma {:induction false} SameHashes(v: seq<Entry>, w: seq<Entry>, h: Hash)
    requires |v| == |w|
    requires forall i :: 0 <= i < |v| ==>
      v[i].Some? == w[i].Some? && (v[i].Some? ==> v[i].value.candidateHash == w[i].value.candidateHash)
    ensures Hashes(v, h) == Hashes(w, h)
  {
    if v != [] {
      SameHashes(Front(v), Front(w), h);
    }
  }

  /*** What one injection does to the list of one core ***/

  /** An entry filed under its own core, whose inclusion carries availability bits. */
  predicate WellFiled(e: Entry, core: Core) {
    e.Some? ==> e.value.assignedCore == core && (e.value.state.Included? ==> e.value.availability.Some?)
  }

  predicate AllWellFiled(v: seq<Entry>, core: Core) {
    forall i :: 0 <= i < |v| ==> WellFiled(v[i], core)
  }

  /** A core at rest tracks exactly one candidate, which is Backed or Pending. */
  predicate AtRest(v: seq<Entry>, core: Core) {
    |v| == 1 && v[0].Some? && v[0].value.IsLive() && v[0].value.assignedCore == core
  }

  ghost predicate Settled(s: State) {
    forall c :: c in s.candidates ==> AtRest(s.candidates[c], c)
  }

  function Backings(own: seq<BackedCandidateInfo>, core: Core): seq<Entry> {
    if own == [] then []
    else if Last(own).coreIdx == core
    then Backings(Front(own), core) + [Some(ParachainBlockInfo.New(Last(own).candidateHash, core))]
    else Backings(Front(own), core)
  }

  lemma {:induction false} BackAllOnCore(s: State, num: u32, own: seq<BackedCandidateInfo>, core: Core)
    ensures CoreList(BackAll(s, num, own), core) == CoreList(s, core) + Backings(own, core)
    ensures BackAll(s, num, own).cores == s.cores && BackAll(s, num, own).current == s.current
  {
    if own != [] {
      BackAllOnCore(s, num, Front(own), core);
    }
  }

  lemma {:induction false} BackingsFacts(own: seq<BackedCandidateInfo>, core: Core, h: Hash)
    ensures AllWellFiled(Backings(own, core), core)
    ensures forall e :: e in Backings(own, core) ==> EntryBacked(e)
    ensures Hashes(Backings(own, core), h) == PushedOn(own, core, h)
  {
    if own != [] {
      BackingsFacts(Front(own), core, h);
      HashesSnoc(Backings(Front(own), core), Some(ParachainBlockInfo.New(Last(own).candidateHash, core)), h);
    }
  }

  /** `w` has the entries of `v`, perhaps in another state; skipped slots stay where they are. */
  predicate Evolved(v: seq<Entry>, w: seq<Entry>, core: Core) {
    && |v| == |w|
    && (forall i :: 0 <= i < |v| ==>
      v[i].Some? == w[i].Some? && (v[i].Some? ==> v[i].value.candidateHash == w[i].value.candidateHash))
    && (AllWellFiled(v, core) ==> AllWellFiled(w, core))
  }

  /** The list of `core` just before the dropped pass. */
  function BeforeDrop(s3: State, occupied: seq<CoreOccupied>, bits: Bits, core: Core): seq<Entry> {
    CoreList(SetPendingAvailability(SetCoreAssignment(s3, occupied), bits), core)
  }

  lemma LatePassesEvolve(s3: State, occupied: seq<CoreOccupied>, bits: Bits, core: Core)
    ensures Evolved(CoreList(s3, core), BeforeDrop(s3, occupied, bits, core), core)
    ensures forall i :: 0 <= i < |CoreList(s3, core)| ==>
      (EntryIncluded(CoreList(s3, core)[i]) <==> EntryIncluded(BeforeDrop(s3, occupied, bits, core)[i]))
  {
    hide BitCount, IsOccupied;
  }

  predicate EntryIncluded(e: Entry) { e.Some? && e.value.state.Included? }

  /** The states an injection passes through: after the included pass and after the backed pass. */
  function Stage2(s: State, hash: Hash, head: NewHead, d: BlockData): State {
    var b := Block(hash, head.number, d.ts);
    SetIncluded(SetForks(SetRelayBlock(s, b), b).(cores := OwnCores(d.assignments, s.paraId)), head.included,
                BitsOf(d))
  }

  function Stage3(s: State, hash: Hash, head: NewHead, d: BlockData): State {
    SetBacked(Stage2(s, hash, head, d), head.number, head.backed)
  }

  function BitsOf(d: BlockData): Bits { Bits(d.bitfields, |Flatten(d.groups)|) }

  lemma InjectStages(s: State, hash: Hash, head: NewHead, d: BlockData, core: Core)
    ensures var s3 := Stage3(s, hash, head, d);
            CoreList(Inject(s, hash, head, Some(d)), core) == DropStale(BeforeDrop(s3, d.occupied, BitsOf(d), core))
  {
  }

  lemma Stage2OnCore(s: State, hash: Hash, head: NewHead, d: BlockData, core: Core)
    ensures CoreList(Stage2(s, hash, head, d), core) == MarkIncluded(CoreList(s, core), head.included, BitsOf(d))
    ensures Stage2(s, hash, head, d).cores == OwnCores(d.assignments, s.paraId)
    ensures Stage2(s, hash, head, d).paraId == s.paraId
  {
  }

  /** The backed pass on one core: the marked list, the new backings, then at most one skipped slot. */
  lemma Stage3OnCore(s: State, hash: Hash, head: NewHead, d: BlockData, core: Core)
    ensures var own := Own(head.backed, s.paraId);
            var s2 := Stage2(s, hash, head, d);
            var middle := BackAll(s2, head.number, own);
            CoreList(Stage3(s, hash, head, d), core) ==
            var v := MarkIncluded(CoreList(s, core), head.included, BitsOf(d)) + Backings(own, core);
            if Skips(middle, core, own) then v + [None] else v
  {
    var own := Own(head.backed, s.paraId);
    Stage2OnCore(s, hash, head, d, core);
    BackAllOnCore(Stage2(s, hash, head, d), head.number, own, core);
  }

  lemma {:induction false} HashesConcat(a: seq<Entry>, b: seq<Entry>, h: Hash)
    ensures Hashes(a + b, h) == Hashes(a, h) + Hashes(b, h)
    decreases |b|
  {
    if b == [] {
      assert a + b == a;
    } else {
      assert Front(a + b) == a + Front(b) && Last(a + b) == Last(b);
      HashesConcat(a, Front(b), h);
    }
  }

  lemma MarkThenBack(v: seq<Entry>, included: seq<Hash>, bits: Bits, own: seq<BackedCandidateInfo>, core: Core, h: Hash)
    requires AllWellFiled(v, core)
    ensures var w := MarkIncluded(v, included, bits) + Backings(own, core);
            Hashes(w, h) == Hashes(v, h) + PushedOn(own, core, h) && AllWellFiled(w, core)
  {
    var marked := MarkIncluded(v, included, bits);
    BackingsFacts(own, core, h);
    SameHashes(v, marked, h);
    HashesConcat(marked, Backings(own, core), h);
  }

  lemma Stage3Hashes(s: State, hash: Hash, head: NewHead, d: BlockData, core: Core, h: Hash)
    requires AllWellFiled(CoreList(s, core), core)
    ensures var v := CoreList(Stage3(s, hash, head, d), core);
            && Hashes(v, h) == Hashes(CoreList(s, core), h) + PushedOn(Own(head.backed, s.paraId), core, h)
            && AllWellFiled(v, core)
  {
    var own := Own(head.backed, s.paraId);
    Stage3OnCore(s, hash, head, d, core);
    MarkThenBack(CoreList(s, core), head.included, BitsOf(d), own, core, h);
    HashesSnoc(MarkIncluded(CoreList(s, core), head.included, BitsOf(d)) + Backings(own, core), None, h);
  }

  lemma DropStaleFacts(v: seq<Entry>, core: Core)
    ensures Evolved(v, DropStale(v), core)
    ensures AtMostOneLive(DropStale(v))
  {
  }

  /** An injection keeps every entry of a core and appends its backings; nothing else appears. */
  lemma InjectOnCore(s: State, hash: Hash, head: NewHead, d: BlockData, core: Core, h: Hash)
    requires AllWellFiled(CoreList(s, core), core)
    ensures var w := CoreList(Inject(s, hash, head, Some(d)), core);
            && Hashes(w, h) == Hashes(CoreList(s, core), h) + PushedOn(Own(head.backed, s.paraId), core, h)
            && AllWellFiled(w, core)
            && AtMostOneLive(w)
  {
    var s3 := Stage3(s, hash, head, d);
    var late := BeforeDrop(s3, d.occupied, BitsOf(d), core);
    Stage3Hashes(s, hash, head, d, core, h);
    LatePassesEvolve(s3, d.occupied, BitsOf(d), core);
    SameHashes(CoreList(s3, core), late, h);
    InjectStages(s, hash, head, d, core);
    DropStaleFacts(late, core);
    SameHashes(late, DropStale(late), h);
  }

  predicate AtMostOneLive(v: seq<Entry>) {
    forall i, j :: 0 <= i < j < |v| ==> !(EntryLive(v[i]) && EntryLive(v[j]))
  }

  predicate EntryLive(e: Entry) { e.Some? && e.value.IsLive() }

  lemma {:induction false} KeepLiveAtMostOne(v: seq<Entry>, core: Core)
    requires AllWellFiled(v, core)
    requires AtMostOneLive(v)
    ensures KeepLive(v) != [] ==> AtRest(KeepLive(v), core)
    ensures KeepLive(v) == [] <==> forall i :: 0 <= i < |v| ==> !EntryLive(v[i])
  {
    if v != [] {
      KeepLiveAtMostOne(Front(v), core);
    }
  }

  /** Every entry is reported as Included, reported as Dropped, or kept by the reset: exactly one of them. */
  lemma {:induction false} Partition(s: State, v: seq<Entry>, core: Core, h: Hash)
    requires AllWellFiled(v, core)
    ensures Hashes(v, h) == IncludedHashes(ListEvents(s, v), h) + DroppedHashes(ListEvents(s, v), h) +
                            Hashes(KeepLive(v), h)
  {
    if v != [] {
      var f := Front(v);
      assert WellFiled(Last(v), core);
      Partition(s, f, core, h);
      IncludedConcat(ListEvents(s, f), EntryEvents(s, Last(v)), h);
      HashesSnoc(KeepLive(f), Last(v), h);
      PartitionOne(s, Last(v), core, h);
    }
  }

  lemma PartitionOne(s: State, e: Entry, core: Core, h: Hash)
    requires WellFiled(e, core)
    ensures HashOf(e, h) == IncludedHashes(EntryEvents(s, e), h) + DroppedHashes(EntryEvents(s, e), h) +
                         (if EntryLive(e) then HashOf(e, h) else 0)
  {
    var evs := EntryEvents(s, e);
    IncludedConcat([], evs[..1], h);
    OneEvent(evs[0], h);
    if |evs| == 2 {
      assert evs == [evs[0]] + [evs[1]];
      IncludedConcat([evs[0]], [evs[1]], h);
      OneEvent(evs[1], h);
    }
  }

  lemma OneEvent(e: Event, h: Hash)
    ensures IncludedHashes([e], h) == IncludedOf(e, h) && DroppedHashes([e], h) == DroppedOf(e, h)
  {
    assert Front([e]) == [];
  }

  /*** Conservation ***/

  function PushedOnCore(paraId: nat, ins: seq<Input>, core: Core, h: Hash): nat {
    if ins == [] then 0
    else PushedOnCore(paraId, Front(ins), core, h) + PushedOn(PushedBy(paraId, Last(ins)), core, h)
  }

  /** Everything reported for `core` over a run. */
  function Stream(paraId: nat, ins: seq<Input>, core: Core): seq<Event> {
    if ins == [] then []
    else if Reports(Run(paraId, Front(ins)), Last(ins))
    then Stream(paraId, Front(ins), core) + CoreEvents(Reported(paraId, ins), core)
    else Stream(paraId, Front(ins), core)
  }

  lemma {:induction false} RunInvariant(paraId: nat, ins: seq<Input>)
    ensures var s := Run(paraId, ins);
            Settled(s) && s.paraId == paraId && (s.current.None? ==> s.candidates == map[])
  {
    if ins != [] {
      RunInvariant(paraId, Front(ins));
      var s, i := Run(paraId, Front(ins)), Last(ins);
      InjectKeepsPara(s, i);
      if i.RelayBlock? {
        var s' := Injected(s, i);
        forall c | c in Reset(s').candidates
          ensures AtRest(Reset(s').candidates[c], c)
        {
          StepOnCore(s, i, c, 0);
          KeepLiveAtMostOne(CoreList(s', c), c);
        }
        if Reset(s').current.None? {
          assert i.data.None?;
          assert Reset(s').candidates == map[];
        }
      }
    }
  }

  lemma {:induction false} BackAllKeeps(s: State, num: u32, own: seq<BackedCandidateInfo>)
    ensures BackAll(s, num, own).paraId == s.paraId && BackAll(s, num, own).current == s.current
  {
    if own != [] {
      BackAllKeeps(s, num, Front(own));
    }
  }

  lemma InjectKeepsPara(s: State, i: Input)
    ensures Injected(s, i).paraId == s.paraId
    ensures Injected(s, i).current == if i.RelayBlock? && i.data.Some?
                                      then Some(Block(i.hash, i.head.number, i.data.value.ts)) else s.current
  {
    if i.RelayBlock? && i.data.Some? {
      var own := Own(i.head.backed, s.paraId);
      BackAllKeeps(Stage2(s, i.hash, i.head, i.data.value), i.head.number, own);
    }
  }

  /** One block on one core, with or without its inherent. */
  lemma StepOnCore(s: State, i: Input, core: Core, h: Hash)
    requires Settled(s) && i.RelayBlock?
    ensures var w := CoreList(Injected(s, i), core);
            && Hashes(w, h) == Hashes(CoreList(s, core), h) + PushedOn(PushedBy(s.paraId, i), core, h)
            && AllWellFiled(w, core)
            && AtMostOneLive(w)
  {
    if i.data.Some? {
      InjectOnCore(s, i.hash, i.head, i.data.value, core, h);
    }
  }

  lemma StepConserves(s: State, i: Input, core: Core, h: Hash)
    requires Settled(s) && i.RelayBlock?
    ensures Hashes(CoreList(s, core), h) + PushedOn(PushedBy(s.paraId, i), core, h) ==
            IncludedHashes(CoreEvents(Injected(s, i), core), h) + DroppedHashes(CoreEvents(Injected(s, i), core), h) +
            Hashes(CoreList(After(s, i), core), h)
  {
    var s' := Injected(s, i);
    StepOnCore(s, i, core, h);
    Partition(s', CoreList(s', core), core, h);
    ResetOnCore(s', core);
  }

  /**
   Conservation, core by core: every candidate backed on a core during a run is reported Included
   once, or reported Dropped once, or is the one still tracked.
   */
  lemma {:induction false} ConservationOnCore(paraId: nat, ins: seq<Input>, core: Core, h: Hash)
    ensures PushedOnCore(paraId, ins, core, h) ==
            IncludedHashes(Stream(paraId, ins, core), h) + DroppedHashes(Stream(paraId, ins, core), h) +
            Hashes(CoreList(Run(paraId, ins), core), h)
  {
    if ins != [] {
      ConservationOnCore(paraId, Front(ins), core, h);
      RunInvariant(paraId, Front(ins));
      var s, i := Run(paraId, Front(ins)), Last(ins);
      InjectKeepsPara(s, i);
      if i.RelayBlock? {
        var s' := Injected(s, i);
        StepConserves(s, i, core, h);
        IncludedConcat(Stream(paraId, Front(ins), core), CoreEvents(s', core), h);
      }
    }
  }

  lemma ResetOnCore(s: State, core: Core)
    ensures CoreList(Reset(s), core) == KeepLive(CoreList(s, core))
  {
  }
}
