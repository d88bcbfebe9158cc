/** The tracker object: fields updated in place, every method proved against `TrackerSpec`. */
module Tracker {
  import opened Prelude
  import opened BlockInfo
  import opened TrackerSpec

  datatype ForkTracker = ForkTracker(
    relayHash: Hash, relayNumber: u32, backedCandidate: Option<Hash>, includedCandidate: Option<Hash>)

  function ForkView(f: ForkTracker): Fork {
    Fork(f.relayHash, f.relayNumber, f.backedCandidate, f.includedCandidate.Some?)
  }

  function ForkViews(forks: seq<ForkTracker>): seq<Fork> {
    seq(|forks|, k requires 0 <= k < |forks| => ForkView(forks[k]))
  }

  datatype Progress = Progress(
    block: Block, prevTimestamp: Timestamp, isFork: bool, session: Option<u32>, events: seq<Event>)

  /** The report on the current block when the map is visited in `order`. */
  function Report(s: State, order: seq<Core>): Progress
    requires s.current.Some?
  {
    Progress(s.current.value, s.lastNonForkTs.GetOr(s.current.value.ts), IsFork(s), s.newSession, Notify(s, order))
  }

  class SubxtTracker {
    const paraId: nat
    var newSession: Option<u32>
    var candidates: map<Core, seq<Entry>>
    var cores: map<Core, seq<nat>>
    var currentRelayBlock: Option<Block>
    var previousRelayBlock: Option<Block>
    var currentNonForkRelayBlockTs: Option<Timestamp>
    var lastNonForkRelayBlockTs: Option<Timestamp>
    var lastBackedAtBlockNumber: Option<u32>
    var backingType: BackingType
    var lastIncludedAt: Option<BlockWithoutHash>
    var previousIncludedAt: Option<BlockWithoutHash>
    var relayForks: seq<ForkTracker>

    ghost function View(): State
      reads this
    {
      State(paraId, newSession, candidates, cores, currentRelayBlock, previousRelayBlock, currentNonForkRelayBlockTs,
            lastNonForkRelayBlockTs, lastBackedAtBlockNumber, backingType, lastIncludedAt, previousIncludedAt,
            ForkViews(relayForks))
    }

    constructor (paraId: nat)
      ensures View() == Init(paraId)
    {
      this.paraId := paraId;
      newSession := None;
      candidates := map[];
      cores := map[];
      currentRelayBlock, previousRelayBlock := None, None;
      currentNonForkRelayBlockTs, lastNonForkRelayBlockTs := None, None;
      lastBackedAtBlockNumber := None;
      backingType := Sync;
      lastIncludedAt, previousIncludedAt := None, None;
      relayForks := [];
    }

    method InjectNewSession(index: u32)
      modifies this
      ensures View() == old(View()).(newSession := Some(index))
    {
      newSession := Some(index);
    }

    method InjectBlock(hash: Hash, head: NewHead, data: Option<BlockData>)
      modifies this
      ensures View() == Inject(old(View()), hash, head, data)
    {
      if data.Some? {
        var d := data.value;
        var maxBits := |Flatten(d.groups)|;
        SetRelayBlock(hash, head.number, d.ts);
        SetForks(hash, head.number);
        SetCores(d.assignments);
        SetIncludedCandidates(head.included, Bits(d.bitfields, maxBits));
        SetBackedCandidates(head.number, head.backed);
        SetCoreAssignment(d.occupied);
        SetPendingAvailability(Bits(d.bitfields, maxBits));
        SetDroppedCandidates();
      }
    }

    method SetRelayBlock(hash: Hash, num: u32, ts: Timestamp)
      modifies this
      ensures View() == TrackerSpec.SetRelayBlock(old(View()), Block(hash, num, ts))
    {
      previousRelayBlock := currentRelayBlock;
      currentRelayBlock := Some(Block(hash, num, ts));
      if !SameNumber(currentRelayBlock, previousRelayBlock) {
        lastNonForkRelayBlockTs := currentNonForkRelayBlockTs;
        currentNonForkRelayBlockTs := Some(ts);
      }
    }

    method SetForks(hash: Hash, num: u32)
      modifies this
      ensures forall ts :: View() == TrackerSpec.SetForks(old(View()), Block(hash, num, ts))
      ensures relayForks != []
    {
      if !SameNumber(currentRelayBlock, previousRelayBlock) {
        relayForks := [];
      }
      relayForks := relayForks + [ForkTracker(hash, num, None, None)];
      assert ForkViews(relayForks) == ForkViews(Front(relayForks)) + [Fork(hash, num, None, false)];
    }

    method SetCores(assignments: seq<(Core, seq<nat>)>)
      modifies this
      ensures View() == old(View()).(cores := OwnCores(assignments, paraId))
      ensures relayForks == old(relayForks)
    {
      cores := map[];
      for k := 0 to |assignments|
        invariant cores == OwnCores(assignments[..k], paraId)
        invariant View() == old(View()).(cores := cores) && relayForks == old(relayForks)
      {
        assert Front(assignments[..k + 1]) == assignments[..k];
        var (core, ids) := assignments[k];
        if paraId in ids {
          cores := cores[core := ids];
        }
      }
      assert assignments[..|assignments|] == assignments;
    }

    static method MarkList(v: seq<Entry>, included: seq<Hash>, bits: Bits) returns (w: seq<Entry>, last: Option<Hash>)
      ensures w == MarkIncluded(v, included, bits)
      ensures last.Some? <==> AnyHit(v, included)
    {
      w, last := v, None;
      for k := 0 to |v|
        invariant |w| == |v|
        invariant forall j :: 0 <= j < |v| ==> w[j] == if j < k then MarkEntry(v[j], included, bits) else v[j]
        invariant last.Some? <==> AnyHit(v[..k], included)
      {
        assert v[..k + 1] == v[..k] + [v[k]];
        if Hit(v[k], included) {
          assert Hit(v[..k + 1][k], included);
          var c := v[k].value.SetIncluded().SetAvailability(bits.At(v[k].value.assignedCore));
          w := w[k := Some(c)];
          last := Some(c.candidateHash);
        } else if i :| 0 <= i < k && Hit(v[i], included) {
          assert Hit(v[..k][i], included) && Hit(v[..k + 1][i], included);
        }
      }
      assert v[..|v|] == v;
    }

    /** Marks every list of the map; `last` is the candidate hit last in the order of the visit. */
    static method MarkAll(m: map<Core, seq<Entry>>, included: seq<Hash>, bits: Bits)
      returns (marked: map<Core, seq<Entry>>, last: Option<Hash>)
      ensures marked == map c | c in m :: MarkIncluded(m[c], included, bits)
      ensures last.Some? <==> exists c :: c in m && AnyHit(m[c], included)
    {
      marked, last := m, None;
      var todo := m.Keys;
      while todo != {}
        invariant todo <= m.Keys == marked.Keys
        invariant forall c :: c in m ==> marked[c] == if c in todo then m[c] else MarkIncluded(m[c], included, bits)
        invariant last.Some? <==> exists c :: c in m.Keys - todo && AnyHit(m[c], included)
      {
        var core :| core in todo;
        var w, hit := MarkList(m[core], included, bits);
        marked := marked[core := w];
        if hit.Some? {
          last := hit;
        }
        todo := todo - {core};
      }
    }

    method SetIncludedCandidates(included: seq<Hash>, bits: Bits)
      requires relayForks != []
      modifies this
      ensures View() == SetIncluded(old(View()), included, bits)
    {
      var lastIncluded;
      candidates, lastIncluded := MarkAll(candidates, included, bits);
      if lastIncluded.Some? {
        RecordInclusion(lastIncluded);
      }
    }

    method RecordInclusion(last: Option<Hash>)
      requires relayForks != [] && last.Some?
      modifies this
      ensures var s := old(View());
        View() == s.(forks := Front(s.forks) + [Last(s.forks).(included := true)],
                     previousIncludedAt := s.lastIncludedAt, lastIncludedAt := WithoutHash(s.current))
    {
      relayForks := Front(relayForks) + [Last(relayForks).(includedCandidate := last)];
      assert ForkViews(relayForks) ==
             Front(old(View()).forks) + [Last(old(View()).forks).(included := true)];
      previousIncludedAt := lastIncludedAt;
      lastIncludedAt := WithoutHash(currentRelayBlock);
    }

    method SetBackedCandidates(num: u32, backed: seq<BackedCandidateInfo>)
      modifies this
      ensures View() == SetBacked(old(View()), num, backed)
    {
      var usedCores: seq<Core> := [];
      for k := 0 to |backed|
        invariant View() == BackAll(old(View()), num, Own(backed[..k], paraId))
        invariant |usedCores| == |Own(backed[..k], paraId)|
        invariant forall j :: 0 <= j < |usedCores| ==> usedCores[j] == Own(backed[..k], paraId)[j].coreIdx
      {
        assert Front(backed[..k + 1]) == backed[..k];
        if backed[k].paraId == paraId {
          ghost var s := View();
          PushBacked(num, backed[k]);
          usedCores := usedCores + [backed[k].coreIdx];
          assert Front(Own(backed[..k], paraId) + [backed[k]]) == Own(backed[..k], paraId);
        }
      }
      assert backed[..|backed|] == backed;
      PushSkipped(usedCores, Own(backed, paraId));
    }

    method PushBacked(num: u32, b: BackedCandidateInfo)
      modifies this
      ensures View() == BackOne(old(View()), num, b)
    {
      var core := b.coreIdx;
      var candidate := ParachainBlockInfo.New(b.candidateHash, core);
      if relayForks != [] {
        relayForks := Front(relayForks) + [Last(relayForks).(backedCandidate := Some(b.candidateHash))];
        assert ForkViews(relayForks) ==
               Front(old(View()).forks) + [Last(old(View()).forks).(backed := Some(b.candidateHash))];
      }
      if backingType.Sync? && lastBackedAtBlockNumber.Some? && WrappingSub(num, lastBackedAtBlockNumber.value) == 1 {
        backingType := Async;
      }
      lastBackedAtBlockNumber := Some(num);
      candidates := candidates[core := GetList(candidates, core) + [Some(candidate)]];
    }

    method PushSkipped(usedCores: seq<Core>, ghost own: seq<BackedCandidateInfo>)
      requires |usedCores| == |own| && forall j :: 0 <= j < |own| ==> usedCores[j] == own[j].coreIdx
      modifies this
      ensures View() == SkipIdle(old(View()), own)
    {
      ghost var s := View();
      var todo := set c | c in cores && c !in usedCores;
      ghost var idle := todo;
      UsedIsListed(usedCores, own);
      SkippedEnds(s, own, idle);
      while todo != {}
        invariant todo <= idle
        invariant View() == s.(candidates := Skipped(s, own, idle - todo))
      {
        var core :| core in todo;
        SkippedOne(s, own, idle - todo, core);
        SkipCore(core, own);
        assert idle - (todo - {core}) == idle - todo + {core};
        todo := todo - {core};
      }
      assert idle - todo == idle;
    }

    method SkipCore(core: Core, ghost own: seq<BackedCandidateInfo>)
      requires core in cores && !UsedBy(own, core)
      modifies this
      ensures var s := old(View());
        View() == if Skips(s, core, own)
                  then s.(candidates := s.candidates[core := GetList(s.candidates, core) + [None]]) else s
    {
      var skip := if backingType.Sync? then !HasBackedOrIncluded(core) else !HasBacked(core);
      if skip {
        candidates := candidates[core := GetList(candidates, core) + [None]];
      }
    }

    /** The candidates once the cores in `done` have been looked at. */
    static ghost function Skipped(s: State, own: seq<BackedCandidateInfo>, done: set<Core>): map<Core, seq<Entry>> {
      map c | c in s.candidates.Keys + s.cores.Keys && (c in s.candidates || (c in done && Skips(s, c, own))) ::
        if c in done && Skips(s, c, own) then GetList(s.candidates, c) + [None] else s.candidates[c]
    }

    static lemma UsedIsListed(usedCores: seq<Core>, own: seq<BackedCandidateInfo>)
      requires |usedCores| == |own| && forall j :: 0 <= j < |own| ==> usedCores[j] == own[j].coreIdx
      ensures forall c :: c in usedCores <==> UsedBy(own, c)
    {
      forall c | UsedBy(own, c)
        ensures c in usedCores
      {
        var j :| 0 <= j < |own| && own[j].coreIdx == c;
        assert usedCores[j] == c;
      }
    }

    static lemma SkippedEnds(s: State, own: seq<BackedCandidateInfo>, idle: set<Core>)
      requires forall c :: c in idle <==> c in s.cores && !UsedBy(own, c)
      ensures Skipped(s, own, idle - idle) == s.candidates
      ensures Skipped(s, own, idle) == SkipIdle(s, own).candidates
    {
    }

    /** Looking at one more core reads only that core's list and the forks. */
    static lemma SkippedOne(s: State, own: seq<BackedCandidateInfo>, done: set<Core>, core: Core)
      requires core in s.cores && core !in done && !UsedBy(own, core)
      ensures var now := s.(candidates := Skipped(s, own, done));
        && GetList(now.candidates, core) == GetList(s.candidates, core)
        && (Skips(s, core, own) <==> Skips(now, core, own))
        && Skipped(s, own, done + {core}) ==
           if Skips(s, core, own) then now.candidates[core := GetList(now.candidates, core) + [None]]
           else now.candidates
    {
    }

    predicate HasBacked(core: Core)
      reads this
    {
      || (exists i :: 0 <= i < |GetList(candidates, core)| && EntryBacked(GetList(candidates, core)[i]))
      || (exists f :: 0 <= f < |relayForks| && ForkViews(relayForks)[f].backed.Some?)
    }

    predicate HasBackedOrIncluded(core: Core)
      reads this
    {
      || (exists i :: 0 <= i < |GetList(candidates, core)| && GetList(candidates, core)[i].Some?)
      || (var forks := ForkViews(relayForks);
          exists f :: 0 <= f < |forks| && (forks[f].backed.Some? || forks[f].included))
    }

    method SetCoreAssignment(occupied: seq<CoreOccupied>)
      modifies this
      ensures View() == TrackerSpec.SetCoreAssignment(old(View()), occupied)
    {
      ghost var s := View();
      var todo := cores.Keys;
      while todo != {}
        invariant todo <= s.cores.Keys && candidates.Keys == s.candidates.Keys
        invariant View() == s.(candidates := candidates)
        invariant forall c :: c in candidates ==>
          candidates[c] == if c in s.cores && c !in todo then OccupyLast(s.candidates[c], IsOccupied(occupied, c))
                           else s.candidates[c]
      {
        var core :| core in todo;
        var v := GetList(candidates, core);
        if v != [] && EntryBacked(Last(v)) {
          var current := Last(v).value.(coreOccupied := IsOccupied(occupied, core));
          candidates := candidates[core := Front(v) + [Some(current)]];
        }
        todo := todo - {core};
      }
    }

    method SetPendingAvailability(bits: Bits)
      modifies this
      ensures View() == TrackerSpec.SetPendingAvailability(old(View()), bits)
    {
      ghost var s := View();
      var justBacked := lastBackedAtBlockNumber.Some? && currentRelayBlock.Some? &&
                        lastBackedAtBlockNumber.value == currentRelayBlock.value.num;
      var todo := cores.Keys;
      while todo != {}
        invariant todo <= s.cores.Keys && candidates.Keys == s.candidates.Keys
        invariant View() == s.(candidates := candidates) && justBacked == JustBacked(s)
        invariant forall c :: c in candidates ==>
          candidates[c] == if c in s.cores && c !in todo && !justBacked then PendLast(s.candidates[c], bits.At(c))
                           else s.candidates[c]
      {
        var core :| core in todo;
        var v := GetList(candidates, core);
        if v != [] && EntryBacked(Last(v)) && !justBacked {
          var candidate := Last(v).value.SetPending().SetAvailability(bits.At(core));
          candidates := candidates[core := Front(v) + [Some(candidate)]];
        }
        todo := todo - {core};
      }
    }

    /** Of the entries still open only the last one is kept; the others are dropped. */
    static method DropList(v: seq<Entry>) returns (w: seq<Entry>)
      ensures w == DropStale(v)
    {
      var open: seq<nat> := [];
      for k := 0 to |v|
        invariant forall j :: 0 <= j < |open| ==> open[j] < k && Open(v[open[j]])
        invariant forall i :: 0 <= i < k && Open(v[i]) ==> i in open
        invariant forall i, j :: 0 <= i < j < |open| ==> open[i] < open[j]
      {
        if Open(v[k]) {
          open := open + [k];
        }
      }
      w := v;
      if |open| > 1 {
        var stale := Front(open);
        for n := 0 to |stale|
          invariant |w| == |v|
          invariant forall i :: 0 <= i < |v| ==> w[i] == if i in stale[..n] then Some(v[i].value.SetDropped()) else v[i]
        {
          assert stale[..n + 1] == stale[..n] + [stale[n]];
          w := w[stale[n] := Some(v[stale[n]].value.SetDropped())];
        }
        assert stale[..|stale|] == stale;
      }
      StaleIsOpenBefore(v, open);
    }

    static lemma StaleIsOpenBefore(v: seq<Entry>, open: seq<nat>)
      requires forall j :: 0 <= j < |open| ==> open[j] < |v| && Open(v[open[j]])
      requires forall i :: 0 <= i < |v| && Open(v[i]) ==> i in open
      requires forall i, j :: 0 <= i < j < |open| ==> open[i] < open[j]
      ensures forall i :: 0 <= i < |v| ==>
        ((Open(v[i]) && OpenAfter(v, i)) <==> open != [] && i in Front(open))
    {
      forall i | 0 <= i < |v|
        ensures (Open(v[i]) && OpenAfter(v, i)) <==> open != [] && i in Front(open)
      {
        if Open(v[i]) && OpenAfter(v, i) {
          var j :| i < j < |v| && Open(v[j]);
          var a :| 0 <= a < |open| && open[a] == i;
          var b :| 0 <= b < |open| && open[b] == j;
          assert Front(open)[a] == i;
        }
        if open != [] && i in Front(open) {
          var a :| 0 <= a < |Front(open)| && Front(open)[a] == i;
          assert Open(v[open[|open| - 1]]) && open[a] < open[|open| - 1];
        }
      }
    }

    static method DropAll(m: map<Core, seq<Entry>>) returns (dropped: map<Core, seq<Entry>>)
      ensures dropped == map c | c in m :: DropStale(m[c])
    {
      dropped := m;
      var todo := m.Keys;
      while todo != {}
        invariant todo <= m.Keys == dropped.Keys
        invariant forall c :: c in m ==> dropped[c] == if c in todo then m[c] else DropStale(m[c])
      {
        var core :| core in todo;
        var w := DropList(m[core]);
        dropped := dropped[core := w];
        todo := todo - {core};
      }
    }

    method SetDroppedCandidates()
      modifies this
      ensures View() == SetDropped(old(View()))
    {
      candidates := DropAll(candidates);
    }

    /** The candidate part of a progress report, in some order of visiting the map. */
    method NotifyCandidateState() returns (events: seq<Event>)
      ensures exists order :: Enumerates(order, candidates.Keys) && events == Notify(View(), order)
    {
      events := [];
      ghost var order: seq<Core> := [];
      var todo := candidates.Keys;
      ghost var s := View();
      while todo != {}
        invariant todo <= candidates.Keys && Enumerates(order, candidates.Keys - todo)
        invariant events == Notify(s, order)
      {
        var core :| core in todo;
        var listed := NotifyList(candidates[core]);
        events := events + listed;
        assert Front(order + [core]) == order;
        order := order + [core];
        todo := todo - {core};
      }
      assert candidates.Keys - {} == candidates.Keys;
      assert Enumerates(order, candidates.Keys) && events == Notify(View(), order);
    }

    method NotifyList(v: seq<Entry>) returns (events: seq<Event>)
      ensures events == ListEvents(View(), v)
    {
      events := [];
      for k := 0 to |v|
        invariant events == ListEvents(View(), v[..k])
      {
        assert Front(v[..k + 1]) == v[..k];
        var one := NotifyOne(v[k]);
        events := events + one;
      }
      assert v[..|v|] == v;
    }

    method NotifyOne(e: Entry) returns (events: seq<Event>)
      ensures events == EntryEvents(View(), e)
    {
      if e.None? {
        return [EvSkipped];
      }
      var c := e.value;
      match c.state {
        case Backed => events := [EvBacked(c.candidateHash)];
        case PendingAvailability =>
          events := [EvPending(c.candidateHash)];
          var v := GetList(candidates, c.assignedCore);
          var justBacked := lastBackedAtBlockNumber.Some? && currentRelayBlock.Some? &&
                            lastBackedAtBlockNumber.value == currentRelayBlock.value.num;
          if v != [] && Last(v).Some? && Last(v).value.coreOccupied && !justBacked && c.availability.Some? {
            events := events + [EvSlow(c.availability.value.current, c.availability.value.max)];
          }
        case Included =>
          events := [];
          if c.availability.Some? {
            events := [EvIncluded(c.candidateHash, c.availability.value.current, c.availability.value.max)];
          }
        case Dropped => events := [EvDropped(c.candidateHash)];
      }
    }

    /** A report exists once a relay block was injected; its previous timestamp is that of the last non-fork block. */
    method MakeProgress() returns (progress: Option<Progress>)
      ensures progress.Some? <==> View().current.Some?
      ensures progress.Some? ==>
        exists order :: Enumerates(order, candidates.Keys) && progress.value == Report(View(), order)
    {
      var events := NotifyCandidateState();
      if currentRelayBlock.None? {
        return None;
      }
      var block := currentRelayBlock.value;
      progress := Some(Progress(block, lastNonForkRelayBlockTs.GetOr(block.ts),
                                SameNumber(currentRelayBlock, previousRelayBlock), newSession, events));
    }

    static method Retain(v: seq<Entry>) returns (w: seq<Entry>)
      ensures w == KeepLive(v)
    {
      w := [];
      for k := 0 to |v|
        invariant w == KeepLive(v[..k])
      {
        assert Front(v[..k + 1]) == v[..k];
        if v[k].Some? && !v[k].value.state.Included? && !v[k].value.state.Dropped? {
          w := w + [v[k]];
        }
      }
      assert v[..|v|] == v;
    }

    static method RetainAll(m: map<Core, seq<Entry>>) returns (kept: map<Core, seq<Entry>>)
      ensures kept == map c | c in m :: KeepLive(m[c])
    {
      kept := m;
      var todo := m.Keys;
      while todo != {}
        invariant todo <= m.Keys == kept.Keys
        invariant forall c :: c in m ==> kept[c] == if c in todo then m[c] else KeepLive(m[c])
      {
        var core :| core in todo;
        var w := Retain(m[core]);
        kept := kept[core := w];
        todo := todo - {core};
      }
    }

    method MaybeResetState()
      modifies this
      ensures View() == Reset(old(View()))
    {
      newSession := None;
      candidates := RetainAll(candidates);
      candidates := map c | c in candidates && candidates[c] != [] :: candidates[c];
    }

    /** The body of the watch loop for one relay block: inject, report, reset. */
    method WatchBlock(hash: Hash, head: NewHead, data: Option<BlockData>)
      returns (progress: Option<Progress>)
      modifies this
      ensures var injected := Inject(old(View()), hash, head, data);
        && View() == Reset(injected)
        && (progress.Some? <==> injected.current.Some?)
        && (progress.Some? ==>
              exists order :: Enumerates(order, injected.candidates.Keys) && progress.value == Report(injected, order))
    {
      InjectBlock(hash, head, data);
      progress := MakeProgress();
      MaybeResetState();
    }
  }
}
