/** What one block makes of the candidates of a core, told from the block and the candidate the core holds. */
module TrackerFates {
  import opened Prelude
  import opened BlockInfo
  import opened TrackerSpec
  import opened TrackerRuns
  import opened TrackerHistory
  import opened TrackerReports

  function IsOnCore(p: nat, core: Core): BackedCandidateInfo -> bool {
    (b: BackedCandidateInfo) => b.paraId == p && b.coreIdx == core
  }

  function CandidateOf(b: BackedCandidateInfo): Hash { b.candidateHash }

  /** The candidates a block backs for the para on a core. */
  function NewOn(backed: seq<BackedCandidateInfo>, p: nat, core: Core): seq<Hash> {
    if backed == [] then []
    else if Last(backed).paraId == p && Last(backed).coreIdx == core
    then NewOn(Front(backed), p, core) + [Last(backed).candidateHash]
    else NewOn(Front(backed), p, core)
  }

  lemma {:induction false} NewOnExactly(backed: seq<BackedCandidateInfo>, p: nat, core: Core)
    ensures Selects(backed, IsOnCore(p, core), CandidateOf, NewOn(backed, p, core))
  {
    hide Selects;
    if backed == [] {
      SelectsNothing(IsOnCore(p, core), CandidateOf);
    } else {
      NewOnExactly(Front(backed), p, core);
      SelectsSnoc(Front(backed), IsOnCore(p, core), CandidateOf, NewOn(Front(backed), p, core), Last(backed));
      assert Front(backed) + [Last(backed)] == backed;
    }
  }

  function Entries(hashes: seq<Hash>, core: Core): seq<Entry> {
    seq(|hashes|, k requires 0 <= k < |hashes| => Some(ParachainBlockInfo.New(hashes[k], core)))
  }

  lemma {:induction false} BackingsAreNew(backed: seq<BackedCandidateInfo>, p: nat, core: Core)
    ensures Backings(Own(backed, p), core) == Entries(NewOn(backed, p, core), core)
    ensures UsedBy(Own(backed, p), core) <==> NewOn(backed, p, core) != []
    ensures NewOn(backed, p, core) != [] ==> Own(backed, p) != []
  {
    if backed != [] {
      BackingsAreNew(Front(backed), p, core);
      if Last(backed).paraId == p {
        var own, before := Own(backed, p), Own(Front(backed), p);
        assert Front(own) == before && own[|before|] == Last(backed);
        assert forall i :: 0 <= i < |before| ==> own[i] == before[i];
      }
    }
  }

  /** The candidates of a core in one block, oldest first: the one it holds and then those backed on it. */
  function Lineup(v: seq<Entry>, news: seq<Hash>): seq<Hash> {
    if v != [] && v[0].Some? then [v[0].value.candidateHash] + news else news
  }

  /** The two passes over the current candidate, on the list of one core. */
  function Late(v: seq<Entry>, ours: bool, just: bool, occupied: bool, a: BlockAvailability): (w: seq<Entry>)
    ensures |w| == |v|
  {
    if !ours then v
    else if just then OccupyLast(v, occupied)
    else PendLast(OccupyLast(v, occupied), a)
  }

  lemma LateIs(s3: State, occupied: seq<CoreOccupied>, bits: Bits, core: Core)
    ensures BeforeDrop(s3, occupied, bits, core) ==
            Late(CoreList(s3, core), core in s3.cores, JustBacked(s3), IsOccupied(occupied, core), bits.At(core))
  {
    hide BitCount, IsOccupied, OccupyLast, PendLast;
    assert OccupyLast([], IsOccupied(occupied, core)) == [] && PendLast([], bits.At(core)) == [] by {
      hide *;
      EmptyLate(IsOccupied(occupied, core), bits.At(core));
    }
  }

  lemma EmptyLate(occupied: bool, a: BlockAvailability)
    ensures OccupyLast([], occupied) == [] && PendLast([], a) == []
  {
  }

  /** What these passes make of the last entry when it is Backed. */
  function Advanced(c: ParachainBlockInfo, ours: bool, just: bool, occupied: bool, a: BlockAvailability):
    ParachainBlockInfo
  {
    if !ours then c
    else if just then c.(coreOccupied := occupied)
    else c.(coreOccupied := occupied, state := PendingAvailability, availability := Some(a))
  }

  lemma LateFacts(v: seq<Entry>, ours: bool, just: bool, occupied: bool, a: BlockAvailability)
    ensures var w := Late(v, ours, just, occupied, a);
            && |w| == |v|
            && (forall k :: 0 <= k < |v| && (k < |v| - 1 || !EntryBacked(v[k])) ==> w[k] == v[k])
            && (v != [] && EntryBacked(Last(v)) ==>
                Last(w) == Some(Advanced(Last(v).value, ours, just, occupied, a)))
  {
  }

  predicate HeldIsHit(v: seq<Entry>, included: seq<Hash>) {
    v != [] && v[0].Some? && v[0].value.candidateHash in included
  }

  /** `w` lines up the candidates of a core and then at most one skipped slot. */
  predicate Lined(v: seq<Entry>, news: seq<Hash>, w: seq<Entry>) {
    var line := Lineup(v, news);
    && |line| <= |w| <= |line| + 1
    && (|w| > |line| ==> Last(w).None?)
    && forall k :: 0 <= k < |line| ==> w[k].Some? && w[k].value.candidateHash == line[k]
  }

  /** The held candidate is Included if the block says so, and every other one is still live. */
  predicate Marked(v: seq<Entry>, news: seq<Hash>, included: seq<Hash>, a: BlockAvailability, w: seq<Entry>) {
    && Lined(v, news, w)
    && forall k :: 0 <= k < |Lineup(v, news)| ==>
         if k == 0 && HeldIsHit(v, included) then EntryIncluded(w[k]) && w[k].value.availability == Some(a)
         else EntryLive(w[k])
  }

  /** Included if the block says so, Dropped if a newer candidate is there, live otherwise. */
  predicate Fated(v: seq<Entry>, news: seq<Hash>, included: seq<Hash>, a: BlockAvailability, w: seq<Entry>) {
    && Lined(v, news, w)
    && forall k :: 0 <= k < |Lineup(v, news)| ==>
         if k == 0 && HeldIsHit(v, included) then EntryIncluded(w[k]) && w[k].value.availability == Some(a)
         else if k < |Lineup(v, news)| - 1 then w[k].value.state.Dropped?
         else EntryLive(w[k])
  }

  lemma Settles(s: State, core: Core)
    requires Settled(s)
    ensures CoreList(s, core) == [] || AtRest(CoreList(s, core), core)
    ensures AllWellFiled(CoreList(s, core), core)
  {
  }

  lemma ListMarked(v: seq<Entry>, news: seq<Hash>, included: seq<Hash>, bits: Bits, core: Core)
    requires v == [] || AtRest(v, core)
    ensures var w := MarkIncluded(v, included, bits) + Entries(news, core);
            && Marked(v, news, included, bits.At(core), w) && Marked(v, news, included, bits.At(core), w + [None])
            && |w| == |Lineup(v, news)|
            && (news != [] ==> Last(w) == Some(ParachainBlockInfo.New(Last(news), core)))
            && (v != [] && !HeldIsHit(v, included) ==> w[0] == v[0])
  {
    var line, w := Lineup(v, news), MarkIncluded(v, included, bits) + Entries(news, core);
    GrownSizes(v, news, included, bits, core);
    forall k | 0 <= k < |line|
      ensures w[k].Some? && w[k].value.candidateHash == line[k]
      ensures if k == 0 && HeldIsHit(v, included)
              then EntryIncluded(w[k]) && w[k].value.availability == Some(bits.At(core)) else EntryLive(w[k])
    {
      hide *;
      GrownAt(v, news, included, bits, core, k);
    }
    if v != [] {
      GrownAt(v, news, included, bits, core, 0);
    }
    if news != [] {
      GrownAt(v, news, included, bits, core, |line| - 1);
    }
    hide Entries, MarkIncluded, BitCount, Lineup, HeldIsHit;
    ListedNone(v, news, included, bits.At(core), w);
  }

  lemma GrownSizes(v: seq<Entry>, news: seq<Hash>, included: seq<Hash>, bits: Bits, core: Core)
    requires v == [] || AtRest(v, core)
    ensures |MarkIncluded(v, included, bits) + Entries(news, core)| == |Lineup(v, news)| == |v| + |news| && |v| <= 1
  {
  }

  /** One entry of the marked and grown list. */
  lemma GrownAt(v: seq<Entry>, news: seq<Hash>, included: seq<Hash>, bits: Bits, core: Core, k: nat)
    requires v == [] || AtRest(v, core)
    requires k < |Lineup(v, news)| == |MarkIncluded(v, included, bits) + Entries(news, core)|
    ensures var line, w := Lineup(v, news), MarkIncluded(v, included, bits) + Entries(news, core);
            && w[k].Some? && w[k].value.candidateHash == line[k]
            && (if k == 0 && HeldIsHit(v, included)
                then EntryIncluded(w[k]) && w[k].value.availability == Some(bits.At(core)) else EntryLive(w[k]))
            && (k == 0 && v != [] && !HeldIsHit(v, included) ==> w[k] == v[0])
            && (k >= |v| ==> k - |v| < |news| && w[k] == Some(ParachainBlockInfo.New(news[k - |v|], core)))
  {
    hide BitCount;
    if k < |v| {
      assert MarkIncluded(v, included, bits)[k] == MarkEntry(v[0], included, bits);
    } else {
      assert Entries(news, core)[k - |v|] == Some(ParachainBlockInfo.New(news[k - |v|], core));
    }
  }

  lemma ListedNone(v: seq<Entry>, news: seq<Hash>, included: seq<Hash>, a: BlockAvailability, w: seq<Entry>)
    requires |w| == |Lineup(v, news)|
    ensures Marked(v, news, included, a, w) ==> Marked(v, news, included, a, w + [None])
  {
    hide HeldIsHit;
  }

  lemma Stage3Marked(s: State, hash: Hash, head: NewHead, d: BlockData, core: Core)
    requires Settled(s)
    ensures var v, news := CoreList(s, core), NewOn(head.backed, s.paraId, core);
            var w := CoreList(Stage3(s, hash, head, d), core);
            && Marked(v, news, head.included, BitsOf(d).At(core), w)
            && (news != [] ==> |w| == |Lineup(v, news)| && Last(w) == Some(ParachainBlockInfo.New(Last(news), core)))
            && (v != [] && !HeldIsHit(v, head.included) ==> w != [] && w[0] == v[0])
            && (news == [] && v != [] && !HeldIsHit(v, head.included) && EntryBacked(v[0]) ==> w == v)
  {
    var own, v := Own(head.backed, s.paraId), CoreList(s, core);
    var news := NewOn(head.backed, s.paraId, core);
    BackingsAreNew(head.backed, s.paraId, core);
    Stage3OnCore(s, hash, head, d, core);
    if v != [] && EntryBacked(v[0]) && !HeldIsHit(v, head.included) && news == [] {
      WaitsAlone(s, hash, head, d, core);
    }
    hide *;
    Settles(s, core);
    ListMarked(v, news, head.included, BitsOf(d), core);
  }

  lemma LateKeepsMarks(v: seq<Entry>, news: seq<Hash>, included: seq<Hash>, a: BlockAvailability, w: seq<Entry>,
                       ours: bool, just: bool, occupied: bool, b: BlockAvailability)
    requires Marked(v, news, included, a, w)
    ensures Marked(v, news, included, a, Late(w, ours, just, occupied, b))
  {
    LateFacts(w, ours, just, occupied, b);
    hide Late;
  }

  lemma DropStaleDecides(v: seq<Entry>, news: seq<Hash>, included: seq<Hash>, a: BlockAvailability, w: seq<Entry>)
    requires Marked(v, news, included, a, w)
    ensures Fated(v, news, included, a, DropStale(w)) && |DropStale(w)| == |w|
    ensures Lineup(v, news) != [] ==> DropStale(w)[|Lineup(v, news)| - 1] == w[|Lineup(v, news)| - 1]
  {
    var line := Lineup(v, news);
    forall k | 0 <= k < |line|
      ensures OpenAfter(w, k) <==> k < |line| - 1
    {
      if k < |line| - 1 {
        assert Open(w[k + 1]);
      }
    }
  }

  lemma {:induction false} KeepsOnly(v: seq<Entry>, j: nat)
    requires j < |v| && EntryLive(v[j]) && forall i :: 0 <= i < |v| && i != j ==> !EntryLive(v[i])
    ensures KeepLive(v) == [v[j]]
  {
    if j == |v| - 1 {
      NoneKept(Front(v));
    } else {
      KeepsOnly(Front(v), j);
    }
  }

  lemma {:induction false} NoneKept(v: seq<Entry>)
    requires forall i :: 0 <= i < |v| ==> !EntryLive(v[i])
    ensures KeepLive(v) == []
  {
    if v != [] {
      assert !EntryLive(v[|v| - 1]);
      NoneKept(Front(v));
    }
  }

  /** After the reset only the last candidate is left, unless it was included. */
  lemma ResetKeepsLast(v: seq<Entry>, news: seq<Hash>, included: seq<Hash>, a: BlockAvailability, w: seq<Entry>)
    requires Fated(v, news, included, a, w)
    ensures var line := Lineup(v, news);
            KeepLive(w) == if line == [] || (|line| == 1 && HeldIsHit(v, included)) then [] else [w[|line| - 1]]
  {
    var line := Lineup(v, news);
    if line == [] || (|line| == 1 && HeldIsHit(v, included)) {
      NoneKept(w);
    } else {
      KeepsOnly(w, |line| - 1);
    }
  }

  /** What a block says about a core and the tracked para. */
  ghost predicate AssignedTo(d: BlockData, core: Core, p: nat) {
    exists i :: 0 <= i < |d.assignments| && d.assignments[i].0 == core && p in d.assignments[i].1
  }

  predicate OccupiedIn(d: BlockData, core: Core) { core < |d.occupied| && d.occupied[core].Occupied? }

  predicate BacksAny(backed: seq<BackedCandidateInfo>, p: nat) { exists b :: b in backed && b.paraId == p }

  /** An own candidate was backed at this height, on any core: in this block or as the last one before it. */
  predicate BackedAtHeight(s: State, head: NewHead) {
    BacksAny(head.backed, s.paraId) || s.lastBackedAt == Some(head.number)
  }

  lemma OwnIsAny(backed: seq<BackedCandidateInfo>, p: nat)
    ensures Own(backed, p) == [] <==> !BacksAny(backed, p)
  {
    OwnExactly(backed, p);
    var own := Own(backed, p);
    if own != [] {
      SelectsMembers(backed, IsFor(p), Itself, own, own[0]);
    }
    forall b | b in backed && b.paraId == p
      ensures own != []
    {
      SelectsMembers(backed, IsFor(p), Itself, own, b);
    }
  }

  /** The four facts the last passes read, from the block itself. */
  lemma LateInputs(s: State, hash: Hash, head: NewHead, d: BlockData, core: Core)
    ensures var s3 := Stage3(s, hash, head, d);
            && (core in s3.cores <==> AssignedTo(d, core, s.paraId))
            && (JustBacked(s3) <==> BackedAtHeight(s, head))
            && (IsOccupied(d.occupied, core) <==> OccupiedIn(d, core))
            && BitsOf(d).At(core) == AvailabilityIn(d, core)
  {
    Stage3Fields(s, hash, head, d);
    OwnCoresExactly(d.assignments, s.paraId, core);
    OwnIsAny(head.backed, s.paraId);
    BitsMean(d, core);
  }

  /** The list of a core at the end of an injection, and what the reset keeps of it. */
  lemma InjectFates(s: State, hash: Hash, head: NewHead, d: BlockData, core: Core)
    requires Settled(s)
    ensures var v, news := CoreList(s, core), NewOn(head.backed, s.paraId, core);
            var w, a := CoreList(Inject(s, hash, head, Some(d)), core), AvailabilityIn(d, core);
            var late := Late(CoreList(Stage3(s, hash, head, d), core), AssignedTo(d, core, s.paraId),
                             BackedAtHeight(s, head), OccupiedIn(d, core), a);
            && Fated(v, news, head.included, a, w) && |w| == |CoreList(Stage3(s, hash, head, d), core)|
            && (Lineup(v, news) != [] ==> w[|Lineup(v, news)| - 1] == late[|Lineup(v, news)| - 1])
  {
    hide *;
    var v, news, s3 := CoreList(s, core), NewOn(head.backed, s.paraId, core), Stage3(s, hash, head, d);
    LateFacts(CoreList(s3, core), AssignedTo(d, core, s.paraId), BackedAtHeight(s, head), OccupiedIn(d, core),
              AvailabilityIn(d, core));
    var a := AvailabilityIn(d, core);
    Stage3Marked(s, hash, head, d, core);
    LateInputs(s, hash, head, d, core);
    LateIs(s3, d.occupied, BitsOf(d), core);
    InjectStages(s, hash, head, d, core);
    LateKeepsMarks(v, news, head.included, a, CoreList(s3, core), AssignedTo(d, core, s.paraId),
                   BackedAtHeight(s, head), OccupiedIn(d, core), a);
    DropStaleDecides(v, news, head.included, a, BeforeDrop(s3, d.occupied, BitsOf(d), core));
  }

  lemma NewsAreRecent(s: State, head: NewHead, core: Core)
    ensures NewOn(head.backed, s.paraId, core) != [] ==> BackedAtHeight(s, head)
  {
    BackingsAreNew(head.backed, s.paraId, core);
    OwnIsAny(head.backed, s.paraId);
  }

  lemma ListSurvivor(v: seq<Entry>, news: seq<Hash>, included: seq<Hash>, a: BlockAvailability, v3: seq<Entry>,
                     w: seq<Entry>, core: Core, ours: bool, just: bool, occupied: bool)
    requires v == [] || AtRest(v, core)
    requires (news != [] ==> |v3| == |Lineup(v, news)| && just &&
                             Last(v3) == Some(ParachainBlockInfo.New(Last(news), core)))
    requires v != [] && !HeldIsHit(v, included) ==> v3 != [] && v3[0] == v[0]
    requires news == [] && v != [] && !HeldIsHit(v, included) && EntryBacked(v[0]) ==> v3 == v
    requires Fated(v, news, included, a, w) && |v3| == |w|
    requires var line := Lineup(v, news);
             line != [] ==> w[|line| - 1] == Late(v3, ours, just, occupied, a)[|line| - 1]
    ensures var w' := KeepLive(w);
            if news != [] then |w'| == 1 && EntryBacked(w'[0]) && w'[0].value.candidateHash == Last(news)
            else if v == [] || HeldIsHit(v, included) then w' == []
            else if v[0].Some? && v[0].value.state.Backed?
            then w' == [Some(Advanced(v[0].value, ours, just, occupied, a))]
            else w' == v
  {
    ResetKeepsLast(v, news, included, a, w);
    LateFacts(v3, ours, just, occupied, a);
    hide KeepLive, Late, Fated, Advanced;
    assert news == [] && v != [] ==> Lineup(v, news) == [v[0].value.candidateHash];
  }

  /**
   Which candidate a core holds after a block: the last one backed on it, still Backed; otherwise the one it
   held, unless that was included.  A held one turns pending when its core is assigned and no own candidate
   was backed at this height, on any core; its availability and the occupation of its core are fixed then.
   */
  lemma SurvivorExactly(s: State, hash: Hash, head: NewHead, d: BlockData, core: Core)
    requires Settled(s)
    ensures var v, news := CoreList(s, core), NewOn(head.backed, s.paraId, core);
            var w := CoreList(Reset(Inject(s, hash, head, Some(d))), core);
            if news != [] then |w| == 1 && EntryBacked(w[0]) && w[0].value.candidateHash == Last(news)
            else if v == [] || HeldIsHit(v, head.included) then w == []
            else if v[0].Some? && v[0].value.state.Backed?
            then w == [Some(Advanced(v[0].value, AssignedTo(d, core, s.paraId), BackedAtHeight(s, head),
                                     OccupiedIn(d, core), AvailabilityIn(d, core)))]
            else w == v
  {
    var p, v, news := s.paraId, CoreList(s, core), NewOn(head.backed, s.paraId, core);
    hide *;
    InjectFates(s, hash, head, d, core);
    Stage3Marked(s, hash, head, d, core);
    NewsAreRecent(s, head, core);
    ResetOnCore(Inject(s, hash, head, Some(d)), core);
    Settles(s, core);
    ListSurvivor(v, news, head.included, AvailabilityIn(d, core), CoreList(Stage3(s, hash, head, d), core),
                 CoreList(Inject(s, hash, head, Some(d)), core), core, AssignedTo(d, core, p),
                 BackedAtHeight(s, head), OccupiedIn(d, core));
  }

  /*** The report of a core ***/

  /** Exactly which event an entry contributes. */
  lemma EntryReports(s: State, e: Entry, core: Core, h: Hash, bits: nat, max: nat)
    requires WellFiled(e, core)
    ensures EvBacked(h) in EntryEvents(s, e) <==> EntryBacked(e) && e.value.candidateHash == h
    ensures EvPending(h) in EntryEvents(s, e) <==> EntryPending(e) && e.value.candidateHash == h
    ensures EvDropped(h) in EntryEvents(s, e) <==> EntryDropped(e) && e.value.candidateHash == h
    ensures EvIncluded(h, bits, max) in EntryEvents(s, e) <==>
            EntryIncluded(e) && e.value.candidateHash == h && e.value.availability == Some(BlockAvailability(bits, max))
    ensures EvSlow(bits, max) in EntryEvents(s, e) <==>
            EntryPending(e) && SlowAvailability(s, core) && e.value.availability == Some(BlockAvailability(bits, max))
  {
    hide SlowAvailability;
  }

  predicate EntryPending(e: Entry) { e.Some? && e.value.state.PendingAvailability? }
  predicate EntryDropped(e: Entry) { e.Some? && e.value.state.Dropped? }

  predicate IsPassed(v: seq<Entry>, news: seq<Hash>, included: seq<Hash>, h: Hash) {
    exists k :: (if HeldIsHit(v, included) then 1 else 0) <= k < |Lineup(v, news)| - 1 && Lineup(v, news)[k] == h
  }

  /** The outcomes reported for a list with these fates. */
  lemma OutcomesOfList(s: State, v: seq<Entry>, news: seq<Hash>, included: seq<Hash>, a: BlockAvailability,
                       w: seq<Entry>, core: Core, h: Hash, bits: nat, max: nat)
    requires Fated(v, news, included, a, w) && AllWellFiled(w, core)
    ensures EvIncluded(h, bits, max) in ListEvents(s, w) <==>
            HeldIsHit(v, included) && v[0].value.candidateHash == h && a == BlockAvailability(bits, max)
    ensures EvDropped(h) in ListEvents(s, w) <==> IsPassed(v, news, included, h)
  {
    var line := Lineup(v, news);
    forall i | 0 <= i < |w|
      ensures EvIncluded(h, bits, max) in EntryEvents(s, w[i]) <==>
              i == 0 && HeldIsHit(v, included) && line[0] == h && a == BlockAvailability(bits, max)
      ensures EvDropped(h) in EntryEvents(s, w[i]) <==>
              (if HeldIsHit(v, included) then 1 else 0) <= i < |line| - 1 && line[i] == h
    {
      assert WellFiled(w[i], core);
      EntryReports(s, w[i], core, h, bits, max);
    }
    hide EntryEvents, ListEvents, Fated, AllWellFiled;
    EventsInList(s, w, EvIncluded(h, bits, max));
    EventsInList(s, w, EvDropped(h));
    FatedLength(v, news, included, a, w);
    if HeldIsHit(v, included) {
      assert line[0] == v[0].value.candidateHash;
      assert EvIncluded(h, bits, max) in EntryEvents(s, w[0]) <==> line[0] == h && a == BlockAvailability(bits, max);
    }
  }

  lemma FatedLength(v: seq<Entry>, news: seq<Hash>, included: seq<Hash>, a: BlockAvailability, w: seq<Entry>)
    requires Fated(v, news, included, a, w)
    ensures |w| >= |Lineup(v, news)|
  {
  }

  /** The live candidate reported for such a list is the one the reset keeps. */
  lemma LiveOfList(s: State, v: seq<Entry>, news: seq<Hash>, included: seq<Hash>, a: BlockAvailability,
                   w: seq<Entry>, core: Core, h: Hash, bits: nat, max: nat)
    requires Fated(v, news, included, a, w) && AllWellFiled(w, core)
    ensures var kept := KeepLive(w);
            && (EvBacked(h) in ListEvents(s, w) <==>
                kept != [] && EntryBacked(kept[0]) && kept[0].value.candidateHash == h)
            && (EvPending(h) in ListEvents(s, w) <==>
                kept != [] && EntryPending(kept[0]) && kept[0].value.candidateHash == h)
            && (EvSlow(bits, max) in ListEvents(s, w) <==>
                kept != [] && EntryPending(kept[0]) && SlowAvailability(s, core) &&
                kept[0].value.availability == Some(BlockAvailability(bits, max)))
  {
    var kept, last := KeepLive(w), |Lineup(v, news)| - 1;
    ResetKeepsLast(v, news, included, a, w);
    FatedLength(v, news, included, a, w);
    forall i | 0 <= i < |w|
      ensures EvBacked(h) in EntryEvents(s, w[i]) <==>
              i == last && kept != [] && EntryBacked(kept[0]) && kept[0].value.candidateHash == h
      ensures EvPending(h) in EntryEvents(s, w[i]) <==>
              i == last && kept != [] && EntryPending(kept[0]) && kept[0].value.candidateHash == h
      ensures EvSlow(bits, max) in EntryEvents(s, w[i]) <==>
              i == last && kept != [] && EntryPending(kept[0]) && SlowAvailability(s, core) &&
              kept[0].value.availability == Some(BlockAvailability(bits, max))
    {
      OnlyLastIsLive(v, news, included, a, w, i);
      assert WellFiled(w[i], core);
      hide *;
      EntryReports(s, w[i], core, h, bits, max);
      LiveIsEither(w[i]);
    }
    hide EntryEvents, ListEvents, Fated, AllWellFiled, SlowAvailability, KeepLive;
    EventsInList(s, w, EvBacked(h));
    EventsInList(s, w, EvPending(h));
    EventsInList(s, w, EvSlow(bits, max));
  }

  lemma LiveIsEither(e: Entry)
    ensures EntryBacked(e) || EntryPending(e) <==> EntryLive(e)
    ensures EntryLive(e) ==> e.Some?
  {
  }

  /** Of a list with these fates only the last candidate can be live, and then it is the one kept. */
  lemma OnlyLastIsLive(v: seq<Entry>, news: seq<Hash>, included: seq<Hash>, a: BlockAvailability, w: seq<Entry>, i: nat)
    requires Fated(v, news, included, a, w) && i < |w|
    ensures EntryLive(w[i]) <==> i == |Lineup(v, news)| - 1 && KeepLive(w) != []
    ensures KeepLive(w) != [] ==> 0 < |Lineup(v, news)| <= |w| && KeepLive(w) == [w[|Lineup(v, news)| - 1]]
  {
    ResetKeepsLast(v, news, included, a, w);
    hide KeepLive;
  }

  /**
   What a block reports about the candidates of a core, event by event: Included is the held one when the block
   says so, with the availability of this block; Dropped are all others but the last; and the last one, which is
   what the core holds afterwards, is reported in the state it is kept in.
   */
  lemma FatesReported(s: State, hash: Hash, head: NewHead, d: BlockData, core: Core, h: Hash, bits: nat, max: nat)
    requires Settled(s)
    ensures var v, news := CoreList(s, core), NewOn(head.backed, s.paraId, core);
            var s' := Inject(s, hash, head, Some(d));
            var events, kept := CoreEvents(s', core), CoreList(Reset(s'), core);
            && (EvIncluded(h, bits, max) in events <==>
                HeldIsHit(v, head.included) && v[0].value.candidateHash == h &&
                bits == |Setters(d.bitfields, core)| && max == TotalSize(d.groups))
            && (EvDropped(h) in events <==> IsPassed(v, news, head.included, h))
            && (EvBacked(h) in events <==>
                kept != [] && EntryBacked(kept[0]) && kept[0].value.candidateHash == h)
            && (EvPending(h) in events <==>
                kept != [] && EntryPending(kept[0]) && kept[0].value.candidateHash == h)
  {
    var v, news, a := CoreList(s, core), NewOn(head.backed, s.paraId, core), AvailabilityIn(d, core);
    var s' := Inject(s, hash, head, Some(d));
    var w := CoreList(s', core);
    hide Inject, Reset, Settled, ListEvents, AllWellFiled, Fated;
    InjectFates(s, hash, head, d, core);
    Settles(s, core);
    InjectOnCore(s, hash, head, d, core, 0);
    ResetOnCore(s', core);
    OutcomesOfList(s', v, news, head.included, a, w, core, h, bits, max);
    LiveOfList(s', v, news, head.included, a, w, core, h, bits, max);
  }

  /** The last entry of a core when no slot of it was skipped. */
  lemma SlowIsAboutLast(s: State, v: seq<Entry>, news: seq<Hash>, included: seq<Hash>, a: BlockAvailability,
                        w: seq<Entry>, core: Core)
    requires Fated(v, news, included, a, w) && w == CoreList(s, core)
    requires KeepLive(w) != []
    ensures SlowAvailability(s, core) <==>
            EvSkipped !in CoreEvents(s, core) && KeepLive(w)[0].Some? && KeepLive(w)[0].value.coreOccupied &&
            !JustBacked(s)
  {
    ResetKeepsLast(v, news, included, a, w);
    hide KeepLive, ListEvents;
    SkippedInList(s, w);
  }

  /**
   Slow availability is reported exactly when the candidate kept by the core is pending, no slot of the core is
   skipped, the core was found occupied, and no own candidate was backed at this height.
   */
  lemma SlowReported(s: State, hash: Hash, head: NewHead, d: BlockData, core: Core, bits: nat, max: nat)
    requires Settled(s)
    ensures var s' := Inject(s, hash, head, Some(d));
            var events, kept := CoreEvents(s', core), CoreList(Reset(s'), core);
            EvSlow(bits, max) in events <==>
              && kept != [] && EntryPending(kept[0]) && kept[0].value.coreOccupied
              && kept[0].value.availability == Some(BlockAvailability(bits, max))
              && EvSkipped !in events && !BackedAtHeight(s, head)
  {
    var v, news, a := CoreList(s, core), NewOn(head.backed, s.paraId, core), AvailabilityIn(d, core);
    var s' := Inject(s, hash, head, Some(d));
    var w := CoreList(s', core);
    hide Inject, Reset, Settled, ListEvents, AllWellFiled, Fated, JustBacked, SlowAvailability;
    InjectFates(s, hash, head, d, core);
    Settles(s, core);
    InjectOnCore(s, hash, head, d, core, 0);
    ResetOnCore(s', core);
    LiveOfList(s', v, news, head.included, a, w, core, 0, bits, max);
    if KeepLive(w) != [] {
      SlowIsAboutLast(s', v, news, head.included, a, w, core);
    }
    JustBackedAfter(s, hash, head, d);
  }

  lemma JustBackedAfter(s: State, hash: Hash, head: NewHead, d: BlockData)
    ensures JustBacked(Inject(s, hash, head, Some(d))) <==> BackedAtHeight(s, head)
  {
    InjectFields(s, hash, head, d);
    OwnIsAny(head.backed, s.paraId);
  }

  /*** Since when a candidate is pending ***/

  /**
   Step `k` turned the candidate of the core pending: the block assigned the core to the para and no own candidate
   was backed at its height.  What it said about the core is what the candidate carries ever since.
   */
  ghost predicate TurnedPending(p: nat, ins: seq<Input>, core: Core, c: ParachainBlockInfo, k: nat)
    requires k < |ins|
  {
    && ins[k].RelayBlock? && ins[k].data.Some?
    && AssignedTo(ins[k].data.value, core, p)
    && !BackedAtHeight(Run(p, ins[..k]), ins[k].head)
    && c.coreOccupied == OccupiedIn(ins[k].data.value, core)
    && c.availability == Some(AvailabilityIn(ins[k].data.value, core))
    && (var v := CoreList(Run(p, ins[..k]), core);
        |v| == 1 && EntryBacked(v[0]) && v[0].value.candidateHash == c.candidateHash)
    && forall j :: k < j <= |ins| ==> CoreList(Run(p, ins[..j]), core) == [Some(c)]
  }

  lemma {:induction false} PendingSince(p: nat, ins: seq<Input>, core: Core) returns (k: nat)
    requires var w := CoreList(Run(p, ins), core); w != [] && EntryPending(w[0])
    ensures k < |ins| && TurnedPending(p, ins, core, CoreList(Run(p, ins), core)[0].value, k)
  {
    assert ins != [];
    RunInvariant(p, ins);
    Settles(Run(p, ins), core);
    AloneAtRest(CoreList(Run(p, ins), core), core);
    hide *;
    if CoreList(Run(p, Front(ins)), core) == CoreList(Run(p, ins), core) {
      k := PendingSince(p, Front(ins), core);
      StaysTurned(p, ins, core, CoreList(Run(p, ins), core)[0].value, k);
    } else {
      k := |ins| - 1;
      TurnsNow(p, ins, core);
    }
  }

  lemma AloneAtRest(v: seq<Entry>, core: Core)
    requires v != [] && AtRest(v, core)
    ensures v[0].Some? && v == [Some(v[0].value)]
  {
  }

  lemma TurnsNow(p: nat, ins: seq<Input>, core: Core)
    requires ins != []
    requires var w := CoreList(Run(p, ins), core); w != [] && EntryPending(w[0])
    requires CoreList(Run(p, Front(ins)), core) != CoreList(Run(p, ins), core)
    ensures TurnedPending(p, ins, core, CoreList(Run(p, ins), core)[0].value, |ins| - 1)
  {
    assert ins[..|ins|] == ins && ins[..|ins| - 1] == Front(ins) && ins[|ins| - 1] == Last(ins);
    assert Run(p, ins) == After(Run(p, Front(ins)), Last(ins));
    hide Run, CoreList, After, AssignedTo, BackedAtHeight, OccupiedIn, AvailabilityIn;
    RunInvariant(p, Front(ins));
    PendingStep(Run(p, Front(ins)), Last(ins), core);
  }

  lemma StaysTurned(p: nat, ins: seq<Input>, core: Core, c: ParachainBlockInfo, k: nat)
    requires k < |ins| - 1 && TurnedPending(p, Front(ins), core, c, k)
    requires CoreList(Run(p, ins), core) == [Some(c)]
    ensures TurnedPending(p, ins, core, c, k)
  {
    hide Run, AssignedTo, BackedAtHeight, OccupiedIn, AvailabilityIn;
    assert Front(ins)[..k] == ins[..k] && Front(ins)[k] == ins[k] && ins[..|ins|] == ins;
    forall j | k < j <= |ins|
      ensures CoreList(Run(p, ins[..j]), core) == [Some(c)]
    {
      assert j < |ins| ==> Front(ins)[..j] == ins[..j];
    }
  }

  /** One step that leaves a pending candidate found it pending, or turned it pending. */
  lemma PendingStep(s: State, i: Input, core: Core)
    requires Settled(s)
    ensures var v, w := CoreList(s, core), CoreList(After(s, i), core);
            w != [] && EntryPending(w[0]) && v != w ==>
              && i.RelayBlock? && i.data.Some? && AssignedTo(i.data.value, core, s.paraId)
              && !BackedAtHeight(s, i.head)
              && w[0].value.coreOccupied == OccupiedIn(i.data.value, core)
              && w[0].value.availability == Some(AvailabilityIn(i.data.value, core))
              && |v| == 1 && EntryBacked(v[0]) && v[0].value.candidateHash == w[0].value.candidateHash
              && w == [w[0]]
  {
    Settles(s, core);
    if i.RelayBlock? && i.data.Some? {
      hide Inject, Reset, Settled, NewOn, BackedAtHeight, AssignedTo, OccupiedIn, AvailabilityIn;
      SurvivorExactly(s, i.hash, i.head, i.data.value, core);
    } else if i.RelayBlock? {
      ResetOnCore(s, core);
      assert KeepLive([]) == [];
      if CoreList(s, core) != [] {
        KeepsOnly(CoreList(s, core), 0);
      }
    }
  }

  /** The candidate of the core is pending since step `k`, in which these bits were set and the core was occupied. */
  ghost predicate SlowSince(p: nat, ins: seq<Input>, core: Core, bits: nat, max: nat, k: nat)
    requires k < |ins|
  {
    && (exists c :: TurnedPending(p, ins, core, c, k) && c.state.PendingAvailability?)
    && OccupiedIn(ins[k].data.value, core)
    && AvailabilityIn(ins[k].data.value, core) == BlockAvailability(bits, max)
  }

  /**
   Slow availability over a run: it is reported exactly when the candidate turned pending in an earlier or this
   block that found the core occupied, has been pending since, no slot of the core is skipped now, and no own
   candidate was backed at this height.  The bits are those of the block in which it turned pending.
   */
  lemma SlowReportedExactly(p: nat, ins: seq<Input>, core: Core, bits: nat, max: nat)
    requires ins != [] && Last(ins).RelayBlock? && Last(ins).data.Some?
    ensures var events := CoreEvents(Reported(p, ins), core);
            EvSlow(bits, max) in events <==>
              && (exists k: nat :: k < |ins| && SlowSince(p, ins, core, bits, max, k))
              && EvSkipped !in events && !BackedAtHeight(Run(p, Front(ins)), Last(ins).head)
  {
    var s, i := Run(p, Front(ins)), Last(ins);
    var kept := CoreList(Run(p, ins), core);
    RunInvariant(p, Front(ins));
    assert Run(p, ins) == Reset(Inject(s, i.hash, i.head, i.data));
    assert Reported(p, ins) == Inject(s, i.hash, i.head, i.data);
    hide Run, Reported, Inject, Reset, CoreList, CoreEvents, Settled, BackedAtHeight;
    SlowReported(s, i.hash, i.head, i.data.value, core, bits, max);
    SlowIsSince(p, ins, core, bits, max);
  }

  lemma SlowIsSince(p: nat, ins: seq<Input>, core: Core, bits: nat, max: nat)
    ensures var kept := CoreList(Run(p, ins), core);
            (exists k: nat :: k < |ins| && SlowSince(p, ins, core, bits, max, k)) <==>
              && kept != [] && EntryPending(kept[0]) && kept[0].value.coreOccupied
              && kept[0].value.availability == Some(BlockAvailability(bits, max))
  {
    assert ins[..|ins|] == ins;
    var kept := CoreList(Run(p, ins), core);
    hide Run, CoreList, AssignedTo, BackedAtHeight, OccupiedIn, AvailabilityIn;
    if kept != [] && EntryPending(kept[0]) && kept[0].value.coreOccupied &&
       kept[0].value.availability == Some(BlockAvailability(bits, max)) {
      var k := PendingSince(p, ins, core);
      assert SlowSince(p, ins, core, bits, max, k);
    }
    if k: nat :| k < |ins| && SlowSince(p, ins, core, bits, max, k) {
      var c :| TurnedPending(p, ins, core, c, k) && c.state.PendingAvailability?;
      assert kept == [Some(c)];
    }
  }
}
