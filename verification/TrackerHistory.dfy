/** The tracker's fields as functions of the relay blocks it has observed. */
module TrackerHistory {
  import opened Prelude
  import opened BlockInfo
  import opened TrackerSpec
  import opened TrackerRuns

  /** A relay block whose inherent was found: its own backings and whether a tracked candidate became included. */
  datatype Observed = Observed(block: Block, own: seq<BackedCandidateInfo>, included: bool)

  predicate HasInclusion(evs: seq<Event>) { exists j :: 0 <= j < |evs| && evs[j].EvIncluded? }

  ghost predicate ReportsInclusion(s: State) {
    exists c :: HasInclusion(CoreEvents(s, c))
  }

  ghost function History(paraId: nat, ins: seq<Input>): seq<Observed> {
    if ins == [] then []
    else
      var before, i := History(paraId, Front(ins)), Last(ins);
      if i.RelayBlock? && i.data.Some?
      then before + [Observed(Block(i.hash, i.head.number, i.data.value.ts), PushedBy(paraId, i),
                              ReportsInclusion(Reported(paraId, ins)))]
      else before
  }

  /*** The current run of equal heights ***/

  function RunStart(obs: seq<Observed>): (start: nat)
    ensures obs != [] ==> start < |obs|
  {
    if |obs| <= 1 then 0
    else if Last(obs).block.num == Last(Front(obs)).block.num then RunStart(Front(obs))
    else |obs| - 1
  }

  /** `RunStart` begins the longest suffix of blocks at the last height. */
  lemma {:induction false} RunStartIsMaximal(obs: seq<Observed>)
    requires obs != []
    ensures forall k :: RunStart(obs) <= k < |obs| ==> obs[k].block.num == Last(obs).block.num
    ensures RunStart(obs) > 0 ==> obs[RunStart(obs) - 1].block.num != Last(obs).block.num
  {
    if |obs| > 1 && Last(obs).block.num == Last(Front(obs)).block.num {
      RunStartIsMaximal(Front(obs));
    }
  }

  predicate NonDecreasing(obs: seq<Observed>) {
    forall i, j :: 0 <= i < j < |obs| ==> obs[i].block.num <= obs[j].block.num
  }

  /** With heights that never go down the current run is every block observed at that height. */
  lemma RunIsWholeHeight(obs: seq<Observed>, k: nat)
    requires NonDecreasing(obs) && k < |obs|
    ensures obs[k].block.num == Last(obs).block.num <==> RunStart(obs) <= k
  {
    RunStartIsMaximal(obs);
  }

  function ForkOf(o: Observed): Fork {
    Fork(o.block.hash, o.block.num, if o.own == [] then None else Some(Last(o.own).candidateHash), o.included)
  }

  function CurrentRun(obs: seq<Observed>): seq<Observed> { if obs == [] then [] else obs[RunStart(obs)..] }

  function ForksOf(blocks: seq<Observed>): seq<Fork> {
    seq(|blocks|, k requires 0 <= k < |blocks| => ForkOf(blocks[k]))
  }

  /*** What one injection leaves in the fields ***/

  lemma {:induction false} BackAllFields(s: State, num: u32, own: seq<BackedCandidateInfo>)
    requires s.forks != []
    ensures var r := BackAll(s, num, own);
            && r.forks == Front(s.forks) +
                          [if own == [] then Last(s.forks) else Last(s.forks).(backed := Some(Last(own).candidateHash))]
            && r == s.(forks := r.forks, candidates := r.candidates, lastBackedAt := r.lastBackedAt,
                       backingType := r.backingType)
            && r.lastBackedAt == (if own == [] then s.lastBackedAt else Some(num))
            && r.backingType == (if own != [] && s.lastBackedAt.Some? && WrappingSub(num, s.lastBackedAt.value) == 1
                                 then Async else s.backingType)
  {
    if own != [] {
      BackAllFields(s, num, Front(own));
    }
  }

  lemma {:induction false} EventsInList(s: State, v: seq<Entry>, e: Event)
    ensures e in ListEvents(s, v) <==> exists i :: 0 <= i < |v| && e in EntryEvents(s, v[i])
  {
    hide EntryEvents;
    if v != [] {
      EventsInList(s, Front(v), e);
      assert e in ListEvents(s, v) <==> e in ListEvents(s, Front(v)) || e in EntryEvents(s, v[|v| - 1]);
      if e in ListEvents(s, Front(v)) {
        var i :| 0 <= i < |Front(v)| && e in EntryEvents(s, Front(v)[i]);
        assert e in EntryEvents(s, v[i]);
      }
      if i :| 0 <= i < |v| && e in EntryEvents(s, v[i]) {
        assert i < |v| - 1 ==> e in EntryEvents(s, Front(v)[i]);
      }
    }
  }

  lemma InclusionInList(s: State, v: seq<Entry>, core: Core)
    requires AllWellFiled(v, core)
    ensures HasInclusion(ListEvents(s, v)) <==> exists i :: 0 <= i < |v| && EntryIncluded(v[i])
  {
    if i :| 0 <= i < |v| && EntryIncluded(v[i]) {
      assert WellFiled(v[i], core);
      var e := EntryEvents(s, v[i])[0];
      assert e.EvIncluded?;
      EventsInList(s, v, e);
      var j :| 0 <= j < |ListEvents(s, v)| && ListEvents(s, v)[j] == e;
    }
    if j :| 0 <= j < |ListEvents(s, v)| && ListEvents(s, v)[j].EvIncluded? {
      EventsInList(s, v, ListEvents(s, v)[j]);
      var i :| 0 <= i < |v| && ListEvents(s, v)[j] in EntryEvents(s, v[i]);
      assert EntryIncluded(v[i]);
    }
  }

  lemma MarkedThenGrown(v: seq<Entry>, included: seq<Hash>, bits: Bits, own: seq<BackedCandidateInfo>, core: Core)
    requires forall i :: 0 <= i < |v| ==> !EntryIncluded(v[i])
    ensures var w := MarkIncluded(v, included, bits) + Backings(own, core);
            forall i :: 0 <= i < |w| ==> (EntryIncluded(w[i]) <==> i < |v| && Hit(v[i], included))
  {
    BackingsFacts(own, core, 0);
    var b := Backings(own, core);
    forall i | 0 <= i < |b|
      ensures !EntryIncluded(b[i])
    {
      assert b[i] in b;
    }
  }

  lemma DropStaleKeeps(v: seq<Entry>)
    ensures |DropStale(v)| == |v|
    ensures forall i :: 0 <= i < |v| ==> (EntryIncluded(DropStale(v)[i]) <==> EntryIncluded(v[i]))
    ensures forall i :: 0 <= i < |v| ==> (DropStale(v)[i].None? <==> v[i].None?)
  {
  }

  /** The last passes neither include an entry nor turn one into a skipped slot. */
  lemma FinalLikeStage3(s: State, hash: Hash, head: NewHead, d: BlockData, core: Core)
    ensures var v, w := CoreList(Stage3(s, hash, head, d), core), CoreList(Inject(s, hash, head, Some(d)), core);
            && |v| == |w|
            && (forall i :: 0 <= i < |w| ==> (EntryIncluded(w[i]) <==> EntryIncluded(v[i])))
            && (forall i :: 0 <= i < |w| ==> (w[i].None? <==> v[i].None?))
  {
    var s3 := Stage3(s, hash, head, d);
    LatePassesEvolve(s3, d.occupied, BitsOf(d), core);
    InjectStages(s, hash, head, d, core);
    DropStaleKeeps(BeforeDrop(s3, d.occupied, BitsOf(d), core));
  }

  /** Old entries keep their place, and only those hit by the block are Included. */
  predicate Lengthened(v: seq<Entry>, w: seq<Entry>, included: seq<Hash>) {
    && |v| <= |w|
    && forall i :: 0 <= i < |w| ==> (EntryIncluded(w[i]) <==> i < |v| && Hit(v[i], included))
  }

  lemma Stage3Lengthens(s: State, hash: Hash, head: NewHead, d: BlockData, core: Core)
    requires Settled(s)
    ensures Lengthened(CoreList(s, core), CoreList(Stage3(s, hash, head, d), core), head.included)
  {
    hide Inject, Own, Flatten, BitCount, Stage2, Stage3, BackAll, Backings, Skips;
    var v, own := CoreList(s, core), Own(head.backed, s.paraId);
    Stage3OnCore(s, hash, head, d, core);
    MarkedThenGrown(v, head.included, BitsOf(d), own, core);
    var grown := MarkIncluded(v, head.included, BitsOf(d)) + Backings(own, core);
    assert Lengthened(v, grown, head.included) && Lengthened(v, grown + [None], head.included);
  }

  lemma InjectLengthens(s: State, hash: Hash, head: NewHead, d: BlockData, core: Core)
    requires Settled(s)
    ensures Lengthened(CoreList(s, core), CoreList(Inject(s, hash, head, Some(d)), core), head.included)
  {
    hide Inject, Stage3;
    Stage3Lengthens(s, hash, head, d, core);
    FinalLikeStage3(s, hash, head, d, core);
  }

  /** An inclusion is reported on a core exactly when one of its tracked candidates was included. */
  lemma InclusionOnCore(s: State, hash: Hash, head: NewHead, d: BlockData, core: Core)
    requires Settled(s)
    ensures HasInclusion(CoreEvents(Inject(s, hash, head, Some(d)), core)) <==> AnyHit(CoreList(s, core), head.included)
  {
    var s' := Inject(s, hash, head, Some(d));
    InjectOnCore(s, hash, head, d, core, 0);
    InjectLengthens(s, hash, head, d, core);
    InclusionInList(s', CoreList(s', core), core);
    HitsAreInclusions(CoreList(s, core), CoreList(s', core), head.included);
  }

  lemma HitsAreInclusions(v: seq<Entry>, w: seq<Entry>, included: seq<Hash>)
    requires |v| <= |w|
    requires forall i :: 0 <= i < |w| ==> (EntryIncluded(w[i]) <==> i < |v| && Hit(v[i], included))
    ensures (exists i :: 0 <= i < |w| && EntryIncluded(w[i])) <==> AnyHit(v, included)
  {
    if i :| 0 <= i < |v| && Hit(v[i], included) {
      assert EntryIncluded(w[i]);
    }
  }

  lemma InclusionReported(s: State, hash: Hash, head: NewHead, d: BlockData)
    requires Settled(s)
    ensures ReportsInclusion(Inject(s, hash, head, Some(d))) <==> SomeIncluded(s, head.included)
  {
    var s' := Inject(s, hash, head, Some(d));
    if SomeIncluded(s, head.included) {
      var c :| c in s.candidates && AnyHit(s.candidates[c], head.included);
      InclusionOnCore(s, hash, head, d, c);
    }
    if ReportsInclusion(s') {
      var c :| HasInclusion(CoreEvents(s', c));
      InclusionOnCore(s, hash, head, d, c);
      assert c in s.candidates;
    }
  }

  lemma Stage2Fields(s: State, hash: Hash, head: NewHead, d: BlockData)
    ensures var s2 := Stage2(s, hash, head, d);
            var b := Block(hash, head.number, d.ts);
            var hit := SomeIncluded(s, head.included);
            var fork := SameNumber(Some(b), s.current);
            && s2.current == Some(b) && s2.previous == s.current && s2.paraId == s.paraId
            && s2.currentNonForkTs == (if fork then s.currentNonForkTs else Some(d.ts))
            && s2.lastNonForkTs == (if fork then s.lastNonForkTs else s.currentNonForkTs)
            && s2.lastIncludedAt == (if hit then Some(BlockWithoutHash(b.num, b.ts)) else s.lastIncludedAt)
            && s2.previousIncludedAt == (if hit then s.lastIncludedAt else s.previousIncludedAt)
            && s2.forks == (if fork then s.forks else []) + [Fork(hash, b.num, None, hit)]
            && s2.lastBackedAt == s.lastBackedAt && s2.backingType == s.backingType
  {
  }

  lemma LatePassFields(s: State, hash: Hash, head: NewHead, d: BlockData)
    ensures var m := Middle(s, RelayBlock(hash, head, Some(d)));
            var s' := Inject(s, hash, head, Some(d));
            s' == m.(candidates := s'.candidates)
  {
  }

  /** How an injection of block `b` moves the fields, given its own backings and whether it included a candidate. */
  predicate Moves(s: State, s': State, b: Block, own: seq<BackedCandidateInfo>, hit: bool) {
    var fork := SameNumber(Some(b), s.current);
    && s'.current == Some(b) && s'.previous == s.current
    && s'.currentNonForkTs == (if fork then s.currentNonForkTs else Some(b.ts))
    && s'.lastNonForkTs == (if fork then s.lastNonForkTs else s.currentNonForkTs)
    && s'.lastIncludedAt == (if hit then Some(BlockWithoutHash(b.num, b.ts)) else s.lastIncludedAt)
    && s'.previousIncludedAt == (if hit then s.lastIncludedAt else s.previousIncludedAt)
    && s'.forks == (if fork then s.forks else []) + [ForkOf(Observed(b, own, hit))]
    && s'.lastBackedAt == (if own == [] then s.lastBackedAt else Some(b.num))
    && s'.backingType == (if own != [] && s.lastBackedAt.Some? && WrappingSub(b.num, s.lastBackedAt.value) == 1
                          then Async else s.backingType)
  }

  lemma InjectFields(s: State, hash: Hash, head: NewHead, d: BlockData)
    ensures Moves(s, Inject(s, hash, head, Some(d)), Block(hash, head.number, d.ts),
                  Own(head.backed, s.paraId), SomeIncluded(s, head.included))
  {
    hide OwnCores, Flatten, BitCount, MarkIncluded, SkipIdle, SetCoreAssignment, SetPendingAvailability, SetDropped;
    Stage2Fields(s, hash, head, d);
    BackAllFields(Stage2(s, hash, head, d), head.number, Own(head.backed, s.paraId));
    LatePassFields(s, hash, head, d);
  }

  /*** Forks, timestamps and inclusion times over a run ***/

  function NonForkTs(obs: seq<Observed>): Option<Timestamp> {
    if obs == [] then None else Some(obs[RunStart(obs)].block.ts)
  }

  function IncludedBlocks(obs: seq<Observed>): seq<BlockWithoutHash> {
    if obs == [] then []
    else if Last(obs).included
    then IncludedBlocks(Front(obs)) + [BlockWithoutHash(Last(obs).block.num, Last(obs).block.ts)]
    else IncludedBlocks(Front(obs))
  }

  ghost predicate Refines(s: State, obs: seq<Observed>) {
    && s.forks == ForksOf(CurrentRun(obs))
    && s.current == (if obs == [] then None else Some(Last(obs).block))
    && s.previous == (if |obs| < 2 then None else Some(obs[|obs| - 2].block))
    && s.currentNonForkTs == NonForkTs(obs)
    && s.lastNonForkTs == NonForkTs(obs[..RunStart(obs)])
    && s.lastIncludedAt == LastOpt(IncludedBlocks(obs))
    && s.previousIncludedAt == (if IncludedBlocks(obs) == [] then None else LastOpt(Front(IncludedBlocks(obs))))
  }

  /**
   After any run: the forks are exactly the blocks of the current equal-height run; the two non-fork
   timestamps are those of the first blocks of the last two such runs; the two inclusion times are the
   last two blocks that reported an inclusion.
   */
  lemma {:induction false} HistoryRefinement(paraId: nat, ins: seq<Input>)
    ensures Refines(Run(paraId, ins), History(paraId, ins))
  {
    if ins != [] {
      HistoryRefinement(paraId, Front(ins));
      RunInvariant(paraId, Front(ins));
      var s, i := Run(paraId, Front(ins)), Last(ins);
      InputRefines(s, i, History(paraId, Front(ins)), ReportsInclusion(Reported(paraId, ins)));
    }
  }

  lemma InputRefines(s: State, i: Input, before: seq<Observed>, included: bool)
    requires Settled(s) && Refines(s, before) && included == ReportsInclusion(Injected(s, i))
    ensures Refines(After(s, i), if i.RelayBlock? && i.data.Some?
                                 then before + [Observed(Block(i.hash, i.head.number, i.data.value.ts),
                                                         PushedBy(s.paraId, i), included)]
                                 else before)
  {
    assert i.RelayBlock? && i.data.None? ==> Injected(s, i) == s;
    hide Inject, Reset, Refines, Moves, Settled, SomeIncluded, ReportsInclusion, Own;
    ResetRefines(Injected(s, i), before);
    if i.RelayBlock? && i.data.Some? {
      var b, own := Block(i.hash, i.head.number, i.data.value.ts), Own(i.head.backed, s.paraId);
      InclusionReported(s, i.hash, i.head, i.data.value);
      InjectFields(s, i.hash, i.head, i.data.value);
      MoveRefines(s, Injected(s, i), b, own, included, before);
      ResetRefines(Injected(s, i), before + [Observed(b, own, included)]);
    } else if i.NewSession? {
      SessionRefines(s, i.index, before);
    }
  }

  lemma ResetRefines(s: State, obs: seq<Observed>)
    ensures Refines(s, obs) ==> Refines(Reset(s), obs)
  {
    hide RunStart, CurrentRun, ForksOf, NonForkTs, IncludedBlocks;
  }

  lemma SessionRefines(s: State, index: u32, obs: seq<Observed>)
    requires Refines(s, obs)
    ensures Refines(s.(newSession := Some(index)), obs)
  {
    hide RunStart, CurrentRun, ForksOf, NonForkTs, IncludedBlocks;
  }

  lemma MoveRefines(s: State, s': State, b: Block, own: seq<BackedCandidateInfo>, hit: bool, before: seq<Observed>)
    requires Refines(s, before) && Moves(s, s', b, own, hit)
    ensures Refines(s', before + [Observed(b, own, hit)])
  {
    var o := Observed(b, own, hit);
    ForksGrow(before, o);
    IncludedGrow(before, o);
    hide RunStart, CurrentRun, ForksOf, NonForkTs, IncludedBlocks;
    assert Last(before + [o]) == o;
    var fork := before != [] && Last(before).block.num == b.num;
    assert SameNumber(Some(b), s.current) == fork;
  }

  lemma IncludedGrow(before: seq<Observed>, o: Observed)
    ensures var blocks, longer := IncludedBlocks(before), IncludedBlocks(before + [o]);
            var now := BlockWithoutHash(o.block.num, o.block.ts);
            && LastOpt(longer) == (if o.included then Some(now) else LastOpt(blocks))
            && (longer == [] <==> blocks == [] && !o.included)
            && (longer != [] ==> Front(longer) == if o.included then blocks else Front(blocks))
  {
    assert Front(before + [o]) == before && Last(before + [o]) == o;
  }

  lemma ForksGrow(before: seq<Observed>, o: Observed)
    ensures var obs := before + [o];
            var fork := before != [] && Last(before).block.num == o.block.num;
            && ForksOf(CurrentRun(obs)) == (if fork then ForksOf(CurrentRun(before)) else []) + [ForkOf(o)]
            && NonForkTs(obs) == (if fork then NonForkTs(before) else Some(o.block.ts))
            && obs[..RunStart(obs)] == (if fork then before[..RunStart(before)] else before)
  {
    var obs := before + [o];
    RunGrows(before, o);
    hide RunStart, CurrentRun, ForksOf;
    assert obs[..|before|] == before;
    if before != [] && Last(before).block.num == o.block.num {
      ForksSnoc(CurrentRun(before), o);
      Prefixes(before, o, RunStart(before));
    } else {
      ForksSnoc([], o);
      NoForks();
      assert [] + [o] == [o] && obs[|before|] == o;
    }
  }

  lemma Prefixes(before: seq<Observed>, o: Observed, k: nat)
    requires k < |before|
    ensures (before + [o])[..k] == before[..k] && (before + [o])[k] == before[k]
  {
  }

  lemma NoForks()
    ensures ForksOf([]) == []
  {
  }

  lemma RunGrows(before: seq<Observed>, o: Observed)
    ensures var obs := before + [o];
            var fork := before != [] && Last(before).block.num == o.block.num;
            && RunStart(obs) == (if fork then RunStart(before) else |before|)
            && CurrentRun(obs) == (if fork then CurrentRun(before) + [o] else [o])
  {
    StartGrows(before, o);
    Suffixes(before, o, if before == [] then 0 else RunStart(before));
    hide RunStart;
  }

  lemma Suffixes(before: seq<Observed>, o: Observed, k: nat)
    requires k <= |before|
    ensures (before + [o])[k..] == before[k..] + [o] && (before + [o])[|before|..] == [o]
  {
  }

  lemma StartGrows(before: seq<Observed>, o: Observed)
    ensures RunStart(before + [o]) ==
            if before != [] && Last(before).block.num == o.block.num then RunStart(before) else |before|
  {
    var obs := before + [o];
    assert Last(obs) == o && Front(obs) == before && |obs| == |before| + 1;
  }

  lemma ForksSnoc(blocks: seq<Observed>, o: Observed)
    ensures ForksOf(blocks + [o]) == ForksOf(blocks) + [ForkOf(o)]
  {
  }

  /*** Backing mode ***/

  /** The relay heights of all own backings, in order. */
  function BackingHeights(obs: seq<Observed>): seq<u32> {
    if obs == [] then []
    else BackingHeights(Front(obs)) + seq(|Last(obs).own|, _ => Last(obs).block.num)
  }

  ghost predicate AdjacentBackings(heights: seq<u32>) {
    exists k :: 0 <= k < |heights| - 1 && WrappingSub(heights[k + 1], heights[k]) == 1
  }

  /** The tracker reads Async exactly when two consecutive own backings were one block apart. */
  lemma {:induction false} BackingModeIsHistory(paraId: nat, ins: seq<Input>)
    ensures var s, heights := Run(paraId, ins), BackingHeights(History(paraId, ins));
            && s.lastBackedAt == LastOpt(heights)
            && (s.backingType.Async? <==> AdjacentBackings(heights))
  {
    if ins != [] {
      BackingModeIsHistory(paraId, Front(ins));
      RunInvariant(paraId, Front(ins));
      ModeStep(Run(paraId, Front(ins)), Last(ins), BackingHeights(History(paraId, Front(ins))));
      HeightsGrow(paraId, ins);
      assert Run(paraId, ins) == After(Run(paraId, Front(ins)), Last(ins));
      hide Run, After, History, BackingHeights, AdjacentBackings, Settled;
    }
  }

  /** The heights that one input adds. */
  function NewHeights(paraId: nat, i: Input): seq<u32> {
    if i.RelayBlock? && i.data.Some? then seq(|PushedBy(paraId, i)|, _ => i.head.number) else []
  }

  lemma HeightsGrow(paraId: nat, ins: seq<Input>)
    requires ins != []
    ensures BackingHeights(History(paraId, ins)) ==
            BackingHeights(History(paraId, Front(ins))) + NewHeights(paraId, Last(ins))
  {
    var before, i := History(paraId, Front(ins)), Last(ins);
    if i.RelayBlock? && i.data.Some? {
      assert Front(History(paraId, ins)) == before;
      hide ReportsInclusion, Run, PushedBy;
    } else {
      assert BackingHeights(before) + [] == BackingHeights(before);
    }
  }

  lemma ModeStep(s: State, i: Input, heights: seq<u32>)
    requires s.lastBackedAt == LastOpt(heights) && (s.backingType.Async? <==> AdjacentBackings(heights))
    ensures var s', longer := After(s, i), heights + NewHeights(s.paraId, i);
            s'.lastBackedAt == LastOpt(longer) && (s'.backingType.Async? <==> AdjacentBackings(longer))
  {
    if i.RelayBlock? && i.data.Some? {
      InjectFields(s, i.hash, i.head, i.data.value);
      hide Inject, Own, SomeIncluded, ForkOf, AdjacentBackings;
      AdjacentGrow(heights, |Own(i.head.backed, s.paraId)|, i.head.number);
    } else {
      assert heights + [] == heights;
    }
  }

  lemma AdjacentGrow(heights: seq<u32>, n: nat, num: u32)
    ensures var longer := heights + seq(n, _ => num);
            && LastOpt(longer) == (if n == 0 then LastOpt(heights) else Some(num))
            && (AdjacentBackings(longer) <==>
                AdjacentBackings(heights) || (n > 0 && heights != [] && WrappingSub(num, Last(heights)) == 1))
  {
    var longer := heights + seq(n, _ => num);
    assert WrappingSub(num, num) == 0;
    hide WrappingSub;
    if AdjacentBackings(heights) {
      var k :| 0 <= k < |heights| - 1 && WrappingSub(heights[k + 1], heights[k]) == 1;
      assert longer[k + 1] == heights[k + 1] && longer[k] == heights[k];
    }
    if n > 0 && heights != [] && WrappingSub(num, Last(heights)) == 1 {
      assert longer[|heights|] == num && longer[|heights| - 1] == Last(heights);
    }
    if AdjacentBackings(longer) {
      var k :| 0 <= k < |longer| - 1 && WrappingSub(longer[k + 1], longer[k]) == 1;
      if k < |heights| - 1 {
        assert heights[k + 1] == longer[k + 1] && heights[k] == longer[k];
      }
    }
  }

  /** Once Async, always Async. */
  lemma {:induction false} NeverBackToSync(paraId: nat, ins: seq<Input>, k: nat)
    requires k <= |ins| && Run(paraId, ins[..k]).backingType.Async?
    ensures Run(paraId, ins).backingType.Async?
    decreases |ins|
  {
    if k == |ins| {
      assert ins[..k] == ins;
    } else {
      assert Front(ins)[..k] == ins[..k];
      NeverBackToSync(paraId, Front(ins), k);
      var s, i := Run(paraId, Front(ins)), Last(ins);
      if i.RelayBlock? && i.data.Some? {
        InjectFields(s, i.hash, i.head, i.data.value);
      }
    }
  }

  /*** Skipped slots ***/

  /** The core still tracks a candidate that this block leaves in the Backed state. */
  predicate StillBacked(v: seq<Entry>, included: seq<Hash>) {
    exists i :: 0 <= i < |v| && EntryBacked(v[i]) && v[i].value.candidateHash !in included
  }

  /** When a skipped slot is reported on `core` for a block whose inherent was found. */
  ghost predicate SlotIsSkipped(paraId: nat, ins: seq<Input>, core: Core)
    requires ins != [] && Last(ins).RelayBlock? && Last(ins).data.Some?
  {
    var s, i, obs := Run(paraId, Front(ins)), Last(ins), History(paraId, ins);
    && core in OwnCores(i.data.value.assignments, paraId)
    && (forall o :: o in CurrentRun(obs) ==> o.own == [])
    && if s.backingType.Sync?
       then CoreList(s, core) == [] && forall o :: o in CurrentRun(obs) ==> !o.included
       else !StillBacked(CoreList(s, core), i.head.included)
  }

  lemma SkippedInList(s: State, v: seq<Entry>)
    ensures EvSkipped in ListEvents(s, v) <==> exists i :: 0 <= i < |v| && v[i].None?
  {
    EventsInList(s, v, EvSkipped);
    forall i | 0 <= i < |v|
      ensures EvSkipped in EntryEvents(s, v[i]) <==> v[i].None?
    {
    }
  }

  /** The state in which the backed pass looks for skipped slots. */
  function Middle(s: State, i: Input): State
    requires i.RelayBlock? && i.data.Some?
  {
    BackAll(Stage2(s, i.hash, i.head, i.data.value), i.head.number, Own(i.head.backed, s.paraId))
  }

  lemma NoneMarked(v: seq<Entry>, included: seq<Hash>, bits: Bits, own: seq<BackedCandidateInfo>, core: Core)
    requires forall k :: 0 <= k < |v| ==> v[k].Some?
    ensures var w := MarkIncluded(v, included, bits) + Backings(own, core);
            forall k :: 0 <= k < |w| ==> w[k].Some?
  {
    BackingsFacts(own, core, 0);
    var b := Backings(own, core);
    forall k | 0 <= k < |b|
      ensures b[k].Some?
    {
      assert b[k] in b;
    }
  }

  lemma SkipReported(s: State, i: Input, core: Core)
    requires Settled(s) && i.RelayBlock? && i.data.Some?
    ensures EvSkipped in CoreEvents(Injected(s, i), core) <==> Skips(Middle(s, i), core, Own(i.head.backed, s.paraId))
  {
    hide Inject, BitCount, Flatten, Own, ListEvents;
    var own := Own(i.head.backed, s.paraId);
    var d := i.data.value;
    var v := CoreList(Stage3(s, i.hash, i.head, d), core);
    Stage3OnCore(s, i.hash, i.head, d, core);
    NoneMarked(CoreList(s, core), i.head.included, BitsOf(d), own, core);
    FinalLikeStage3(s, i.hash, i.head, d, core);
    SkippedInList(Injected(s, i), CoreList(Injected(s, i), core));
    if Skips(Middle(s, i), core, own) {
      assert v[|v| - 1].None?;
    }
  }

  /** A skipped slot is reported on a core exactly when the history says so. */
  lemma SkippedSlotExactly(paraId: nat, ins: seq<Input>, core: Core)
    requires ins != [] && Last(ins).RelayBlock? && Last(ins).data.Some?
    ensures EvSkipped in CoreEvents(Reported(paraId, ins), core) <==> SlotIsSkipped(paraId, ins, core)
  {
    var s, i, obs := Run(paraId, Front(ins)), Last(ins), History(paraId, ins);
    hide Middle, RunStart, StillBacked, Settled, Run, Injected, History, CoreList, CurrentRun, ForksOf, OwnCores, Own;
    RunInvariant(paraId, Front(ins));
    ForksAfter(paraId, ins);
    SkipReported(s, i, core);
    MiddleFields(s, i, core);
    AnyOfForks(CurrentRun(obs));
    if Last(obs).own == [] {
      MiddleQueries(s, i, core);
    }
  }

  /** The forks of a block whose inherent was found, from the history that ends with it. */
  lemma ForksAfter(paraId: nat, ins: seq<Input>)
    requires ins != [] && Last(ins).RelayBlock? && Last(ins).data.Some?
    ensures var i, obs := Last(ins), History(paraId, ins);
            && obs != [] && Last(obs).own == Own(i.head.backed, paraId) && Last(obs) in CurrentRun(obs)
            && Injected(Run(paraId, Front(ins)), i).forks == ForksOf(CurrentRun(obs))
  {
    var obs := History(paraId, ins);
    HistoryRefinement(paraId, ins);
    assert Run(paraId, ins).forks == Injected(Run(paraId, Front(ins)), Last(ins)).forks;
    assert obs[|obs| - 1] in obs[RunStart(obs)..] by {
      assert obs[RunStart(obs)..][|obs| - 1 - RunStart(obs)] == obs[|obs| - 1];
    }
    hide RunStart, Inject, Reset;
  }

  /** With no own backing, the two queries of the backed pass read the marked list and the forks. */
  lemma MiddleQueries(s: State, i: Input, core: Core)
    requires Settled(s) && i.RelayBlock? && i.data.Some? && Own(i.head.backed, s.paraId) == []
    ensures HasBackedCandidate(Middle(s, i), core) <==>
            StillBacked(CoreList(s, core), i.head.included) || AnyForkBacked(Injected(s, i).forks)
    ensures HasBackedOrIncludedCandidate(Middle(s, i), core) <==>
            CoreList(s, core) != [] || AnyForkBacked(Injected(s, i).forks) || AnyForkIncluded(Injected(s, i).forks)
  {
    hide Middle, Injected, BackAll, OwnCores, BitCount, Flatten, Own;
    MiddleFields(s, i, core);
    var v, w := CoreList(s, core), CoreList(Middle(s, i), core);
    if k :| 0 <= k < |v| && EntryBacked(v[k]) && v[k].value.candidateHash !in i.head.included {
      assert EntryBacked(w[k]);
    }
    if v != [] {
      assert w[0].Some?;
    }
  }

  predicate AnyForkBacked(forks: seq<Fork>) { exists f :: 0 <= f < |forks| && forks[f].backed.Some? }
  predicate AnyForkIncluded(forks: seq<Fork>) { exists f :: 0 <= f < |forks| && forks[f].included }

  lemma MiddleFields(s: State, i: Input, core: Core)
    requires i.RelayBlock? && i.data.Some?
    ensures var m, own := Middle(s, i), Own(i.head.backed, s.paraId);
            && m.cores == OwnCores(i.data.value.assignments, s.paraId)
            && m.forks == Injected(s, i).forks && m.forks != []
            && (own == [] ==> m.backingType == s.backingType)
            && (own == [] ==> CoreList(m, core) == MarkIncluded(CoreList(s, core), i.head.included,
                                                                BitsOf(i.data.value)))
  {
    hide MarkIncluded, OwnCores, BitCount, Flatten, Own;
    var own := Own(i.head.backed, s.paraId);
    var s2 := Stage2(s, i.hash, i.head, i.data.value);
    Stage2OnCore(s, i.hash, i.head, i.data.value, core);
    BackAllFields(s2, i.head.number, own);
    BackAllOnCore(s2, i.head.number, own, core);
  }

  lemma AnyOfForks(blocks: seq<Observed>)
    ensures AnyForkBacked(ForksOf(blocks)) <==> exists o :: o in blocks && o.own != []
    ensures AnyForkIncluded(ForksOf(blocks)) <==> exists o :: o in blocks && o.included
  {
    var forks := ForksOf(blocks);
    if o :| o in blocks && o.own != [] {
      var k :| 0 <= k < |blocks| && blocks[k] == o;
      assert forks[k].backed.Some?;
    }
    if o :| o in blocks && o.included {
      var k :| 0 <= k < |blocks| && blocks[k] == o;
      assert forks[k].included;
    }
    if f :| 0 <= f < |forks| && forks[f].backed.Some? {
      assert blocks[f] in blocks;
    }
    if f :| 0 <= f < |forks| && forks[f].included {
      assert blocks[f] in blocks;
    }
  }

  /** A block whose inherent is missing reports no skipped slot. */
  lemma NoInherentNoSkip(paraId: nat, ins: seq<Input>, core: Core)
    requires ins != [] && Last(ins).RelayBlock? && Last(ins).data.None?
    ensures EvSkipped !in CoreEvents(Reported(paraId, ins), core)
  {
    var s := Run(paraId, Front(ins));
    RunInvariant(paraId, Front(ins));
    assert Reported(paraId, ins) == s;
    hide Run, ListEvents, Reported;
    SkippedInList(s, CoreList(s, core));
  }

  /**
   Skipped-slot safety: with heights that never go down, a skipped slot at a height means that no
   candidate of the para was backed, on any core, in any block observed at that height; and a block
   whose inherent is missing reports no skipped slot at all.
   */
  lemma SkippedSlotIsSafe(paraId: nat, ins: seq<Input>, core: Core)
    requires ins != [] && Last(ins).RelayBlock?
    ensures var obs := History(paraId, ins);
            NonDecreasing(obs) && EvSkipped in CoreEvents(Reported(paraId, ins), core) ==>
              && Last(ins).data.Some?
              && forall k :: 0 <= k < |obs| && obs[k].block.num == Last(ins).head.number ==> obs[k].own == []
  {
    hide Run, Reported, CoreEvents, RunStart;
    var obs := History(paraId, ins);
    if Last(ins).data.None? {
      NoInherentNoSkip(paraId, ins, core);
    } else if NonDecreasing(obs) && EvSkipped in CoreEvents(Reported(paraId, ins), core) {
      SkippedSlotExactly(paraId, ins, core);
      assert Last(obs).block.num == Last(ins).head.number;
      hide History;
      forall k | 0 <= k < |obs| && obs[k].block.num == Last(ins).head.number
        ensures obs[k].own == []
      {
        RunIsWholeHeight(obs, k);
        assert obs[k] == CurrentRun(obs)[k - RunStart(obs)];
      }
    }
  }

  /*** Reported Backed again ***/

  /** The backed candidate a core holds is left alone: not included, and no newer one on its core. */
  predicate Waits(s: State, head: NewHead, core: Core) {
    var v := CoreList(s, core);
    && |v| == 1 && EntryBacked(v[0]) && v[0].value.candidateHash !in head.included
    && !UsedBy(Own(head.backed, s.paraId), core)
  }

  lemma {:induction false} NoBackings(own: seq<BackedCandidateInfo>, core: Core)
    requires !UsedBy(own, core)
    ensures Backings(own, core) == []
  {
    if own != [] {
      assert own[|own| - 1].coreIdx != core;
      forall i | 0 <= i < |Front(own)|
        ensures Front(own)[i].coreIdx != core
      {
        assert own[i].coreIdx != core;
      }
      NoBackings(Front(own), core);
    }
  }

  /** A waiting candidate keeps its core to itself until the last passes. */
  lemma WaitsAlone(s: State, hash: Hash, head: NewHead, d: BlockData, core: Core)
    requires Waits(s, head, core)
    ensures CoreList(Stage3(s, hash, head, d), core) == CoreList(s, core)
  {
    hide Inject, Stage2, Stage3, Flatten, BitCount, Own, BackAll;
    var v, own := CoreList(s, core), Own(head.backed, s.paraId);
    var middle := BackAll(Stage2(s, hash, head, d), head.number, own);
    Stage3OnCore(s, hash, head, d, core);
    NoBackings(own, core);
    assert MarkIncluded(v, head.included, BitsOf(d)) == v && v + [] == v;
    BackAllOnCore(Stage2(s, hash, head, d), head.number, own, core);
    Stage2OnCore(s, hash, head, d, core);
    assert EntryBacked(CoreList(middle, core)[0]);
  }

  lemma LastPassesOnWaiting(s3: State, occupied: seq<CoreOccupied>, bits: Bits, core: Core)
    requires |CoreList(s3, core)| == 1 && EntryBacked(CoreList(s3, core)[0])
    ensures var s' := SetDropped(SetPendingAvailability(SetCoreAssignment(s3, occupied), bits));
            var w := CoreList(s', core);
            && |w| == 1 && w[0].Some? && w[0].value.candidateHash == CoreList(s3, core)[0].value.candidateHash
            && (if core !in s3.cores || JustBacked(s3) then w[0].value.state.Backed?
                else w[0].value.state.PendingAvailability?)
  {
    hide BitCount;
  }

  lemma Stage3Fields(s: State, hash: Hash, head: NewHead, d: BlockData)
    ensures var s3, own := Stage3(s, hash, head, d), Own(head.backed, s.paraId);
            && s3.cores == OwnCores(d.assignments, s.paraId)
            && (JustBacked(s3) <==> own != [] || s.lastBackedAt == Some(head.number))
  {
    hide OwnCores, BitCount, Flatten, Own, MarkIncluded;
    Stage2Fields(s, hash, head, d);
    BackAllFields(Stage2(s, hash, head, d), head.number, Own(head.backed, s.paraId));
  }

  lemma OneEntryEvents(s: State, core: Core)
    requires |CoreList(s, core)| == 1
    ensures CoreEvents(s, core) == EntryEvents(s, CoreList(s, core)[0])
  {
    var w := CoreList(s, core);
    assert Front(w) == [] && ListEvents(s, w) == [] + EntryEvents(s, w[0]);
  }

  lemma LiveEvents(s: State, e: Entry)
    requires e.Some? && (e.value.state.Backed? || e.value.state.PendingAvailability?)
    ensures EvBacked(e.value.candidateHash) in EntryEvents(s, e) <==> e.value.state.Backed?
    ensures EvPending(e.value.candidateHash) in EntryEvents(s, e) <==> e.value.state.PendingAvailability?
  {
  }

  /** The waiting candidate after the block: alone on its core, and in the state the pending pass leaves it in. */
  lemma WaitingAfter(s: State, hash: Hash, head: NewHead, d: BlockData, core: Core)
    requires Waits(s, head, core)
    ensures var w := CoreList(Inject(s, hash, head, Some(d)), core);
            && |w| == 1 && w[0].Some? && w[0].value.candidateHash == CoreList(s, core)[0].value.candidateHash
            && (if core !in Stage3(s, hash, head, d).cores || JustBacked(Stage3(s, hash, head, d))
                then w[0].value.state.Backed? else w[0].value.state.PendingAvailability?)
  {
    var s3 := Stage3(s, hash, head, d);
    assert Inject(s, hash, head, Some(d)) ==
           SetDropped(SetPendingAvailability(SetCoreAssignment(s3, d.occupied), BitsOf(d)));
    WaitsAlone(s, hash, head, d, core);
    hide Inject, Stage3, SetDropped, SetPendingAvailability, SetCoreAssignment, BitsOf;
    LastPassesOnWaiting(s3, d.occupied, BitsOf(d), core);
  }

  /**
   Not every candidate is reported Backed only once.  A waiting one is reported Backed again exactly when
   its core is not assigned in this block or some own candidate, on any core, was backed at this height;
   otherwise it is reported as pending.
   */
  lemma BackedAgainExactly(s: State, hash: Hash, head: NewHead, d: BlockData, core: Core)
    requires Waits(s, head, core)
    ensures var h := CoreList(s, core)[0].value.candidateHash;
            var events := CoreEvents(Inject(s, hash, head, Some(d)), core);
            && (EvBacked(h) in events <==>
                || core !in OwnCores(d.assignments, s.paraId)
                || Own(head.backed, s.paraId) != []
                || s.lastBackedAt == Some(head.number))
            && (EvBacked(h) in events || EvPending(h) in events)
  {
    assert |CoreList(s, core)| == 1 && CoreList(s, core)[0].Some?;
    hide *;
    var s' := Inject(s, hash, head, Some(d));
    WaitingAfter(s, hash, head, d, core);
    Stage3Fields(s, hash, head, d);
    OneEntryEvents(s', core);
    LiveEvents(s', CoreList(s', core)[0]);
  }

  /** A block that only backs `h` on `core`, and a later one in which nothing happens. */
  function BackedThenQuiet(paraId: nat, core: Core, h: Hash, d1: BlockData, d2: BlockData): seq<Input> {
    [RelayBlock(1, NewHead(1, [BackedCandidateInfo(h, core, paraId)], []), Some(d1)),
     RelayBlock(2, NewHead(2, [], []), Some(d2))]
  }

  /** It does happen: a candidate whose core is not assigned in the next block is reported Backed in both. */
  lemma BackedTwice(paraId: nat, core: Core, h: Hash, d1: BlockData, d2: BlockData)
    requires core !in OwnCores(d2.assignments, paraId)
    ensures var ins := BackedThenQuiet(paraId, core, h, d1, d2);
            && EvBacked(h) in CoreEvents(Reported(paraId, ins[..1]), core)
            && EvBacked(h) in CoreEvents(Reported(paraId, ins), core)
  {
    var ins := BackedThenQuiet(paraId, core, h, d1, d2);
    FirstBacked(paraId, core, h, d1);
    assert ins[..1] == [ins[0]] && Front(ins) == [ins[0]];
    var s := Run(paraId, [ins[0]]);
    RunInvariant(paraId, [ins[0]]);
    BackedAgainExactly(s, 2, ins[1].head, d2, core);
  }

  /** After a first block that backs `h`, its core holds exactly that candidate, still Backed. */
  lemma FirstBacked(paraId: nat, core: Core, h: Hash, d: BlockData)
    ensures var i := RelayBlock(1, NewHead(1, [BackedCandidateInfo(h, core, paraId)], []), Some(d));
            && EvBacked(h) in CoreEvents(Reported(paraId, [i]), core)
            && CoreList(Run(paraId, [i]), core) != [] && EntryBacked(CoreList(Run(paraId, [i]), core)[0])
            && CoreList(Run(paraId, [i]), core)[0].value.candidateHash == h
  {
    var b := BackedCandidateInfo(h, core, paraId);
    var head := NewHead(1, [b], []);
    var i := RelayBlock(1, head, Some(d));
    var s := Init(paraId);
    assert Front([i]) == [] && Last([i]) == i && Front([b]) == [] && Last([b]) == b;
    assert Own([b], paraId) == [b];
    assert [b][0].coreIdx == core;
    Stage3OnCore(s, 1, head, d, core);
    Stage3Fields(s, 1, head, d);
    var s3 := Stage3(s, 1, head, d);
    assert CoreList(s3, core) == [Some(ParachainBlockInfo.New(h, core))] by {
      assert Backings([b], core) == [Some(ParachainBlockInfo.New(h, core))];
      assert UsedBy([b], core);
    }
    LastPassesOnWaiting(s3, d.occupied, BitsOf(d), core);
    var s' := Inject(s, 1, head, Some(d));
    assert s' == SetDropped(SetPendingAvailability(SetCoreAssignment(s3, d.occupied), BitsOf(d)));
    assert Reported(paraId, [i]) == s' && Run(paraId, [i]) == Reset(s');
    hide Inject, Stage3, SetDropped;
    var w := CoreList(s', core);
    ResetOnCore(s', core);
    assert Front(w) == [] && ListEvents(s', w) == [] + EntryEvents(s', w[0]) && KeepLive(w) == w;
  }
}
