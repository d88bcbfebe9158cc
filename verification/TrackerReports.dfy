/** What the tracker's reports mean, in terms of the blocks alone: whose candidates, which bits, what state. */
module TrackerReports {
  import opened Prelude
  import opened BlockInfo
  import opened TrackerSpec
  import opened TrackerRuns
  import opened TrackerHistory
  import Object = Tracker
  import Totals = TrackerTotals

  /*** Whose candidates ***/

  function IsFor(p: nat): BackedCandidateInfo -> bool { (b: BackedCandidateInfo) => b.paraId == p }

  /** The own candidates are those of the para, in order and once each. */
  lemma {:induction false} OwnExactly(backed: seq<BackedCandidateInfo>, p: nat)
    ensures Selects(backed, IsFor(p), Itself, Own(backed, p))
  {
    hide Selects;
    if backed == [] {
      SelectsNothing(IsFor(p), Itself<BackedCandidateInfo>);
    } else {
      OwnExactly(Front(backed), p);
      SelectsSnoc(Front(backed), IsFor(p), Itself, Own(Front(backed), p), Last(backed));
      assert Front(backed) + [Last(backed)] == backed;
    }
  }

  /** How often the blocks of a run, counted over all their backed candidates, back `h` for the para. */
  function BackedFor(p: nat, backed: seq<BackedCandidateInfo>, h: Hash): nat {
    if backed == [] then 0
    else BackedFor(p, Front(backed), h) + (if Last(backed).paraId == p && Last(backed).candidateHash == h then 1 else 0)
  }

  function BackedInRun(p: nat, ins: seq<Input>, h: Hash): nat {
    if ins == [] then 0
    else
      BackedInRun(p, Front(ins), h) +
      (if Last(ins).RelayBlock? && Last(ins).data.Some? then BackedFor(p, Last(ins).head.backed, h) else 0)
  }

  lemma {:induction false} PushedIsBacked(p: nat, backed: seq<BackedCandidateInfo>, h: Hash)
    ensures Totals.PushCount(Own(backed, p), h) == BackedFor(p, backed, h)
  {
    if backed != [] {
      PushedIsBacked(p, Front(backed), h);
      if Last(backed).paraId == p {
        assert Front(Own(backed, p)) == Own(Front(backed), p);
      }
    }
  }

  lemma {:induction false} PushedIsBackedInRun(p: nat, ins: seq<Input>, h: Hash)
    ensures Totals.PushedIn(p, ins, h) == BackedInRun(p, ins, h)
  {
    if ins != [] {
      PushedIsBackedInRun(p, Front(ins), h);
      if Last(ins).RelayBlock? {
        PushedIsBacked(p, Last(ins).head.backed, h);
      }
    }
  }

  /** Conservation with nothing of the tracker on the left: backed for the para = Included + Dropped + live. */
  lemma BackedAreConserved(p: nat, ins: seq<Input>, orders: seq<seq<Core>>, final: seq<Core>, h: Hash)
    requires Totals.ValidOrders(p, ins, orders)
    requires Enumerates(final, Run(p, ins).candidates.Keys)
    ensures BackedInRun(p, ins, h) ==
            IncludedHashes(Totals.EventStream(p, ins, orders), h) +
            DroppedHashes(Totals.EventStream(p, ins, orders), h) +
            Totals.LiveCount(Run(p, ins), final, h)
  {
    Totals.Conservation(p, ins, orders, final, h);
    PushedIsBackedInRun(p, ins, h);
  }

  /** The event is about candidate `h`. */
  predicate IsAbout(e: Event, h: Hash) {
    match e
    case EvBacked(x) => x == h
    case EvPending(x) => x == h
    case EvIncluded(x, _, _) => x == h
    case EvDropped(x) => x == h
    case _ => false
  }

  /** Some block of the run backs `h` for the para on this core. */
  ghost predicate BackedOnCore(p: nat, ins: seq<Input>, core: Core, h: Hash) {
    exists k, b :: 0 <= k < |ins| && ins[k].RelayBlock? && b in ins[k].head.backed &&
                   b.paraId == p && b.coreIdx == core && b.candidateHash == h
  }

  lemma {:induction false} PushedWasBacked(p: nat, backed: seq<BackedCandidateInfo>, core: Core, h: Hash)
    requires PushedOn(Own(backed, p), core, h) > 0
    ensures exists b :: b in backed && b.paraId == p && b.coreIdx == core && b.candidateHash == h
  {
    if Last(backed).paraId == p && Last(backed).coreIdx == core && Last(backed).candidateHash == h {
      assert Last(backed) in backed;
    } else {
      if Last(backed).paraId == p {
        assert Front(Own(backed, p)) == Own(Front(backed), p);
      }
      PushedWasBacked(p, Front(backed), core, h);
      var b :| b in Front(backed) && b.paraId == p && b.coreIdx == core && b.candidateHash == h;
      assert b in backed;
    }
  }

  lemma {:induction false} ListedIsThere(v: seq<Entry>, h: Hash)
    ensures Hashes(v, h) > 0 <==> exists i :: 0 <= i < |v| && v[i].Some? && v[i].value.candidateHash == h
  {
    if v != [] {
      ListedIsThere(Front(v), h);
      assert forall i :: 0 <= i < |Front(v)| ==> v[i] == Front(v)[i];
      assert v[|v| - 1] == Last(v);
    }
  }

  lemma AboutIsListed(s: State, v: seq<Entry>, e: Event, h: Hash)
    requires e in ListEvents(s, v) && IsAbout(e, h)
    ensures Hashes(v, h) > 0
  {
    EventsInList(s, v, e);
    ListedIsThere(v, h);
  }

  lemma {:induction false} TrackedWasBacked(p: nat, ins: seq<Input>, core: Core, h: Hash)
    requires Hashes(CoreList(Run(p, ins), core), h) > 0
    ensures BackedOnCore(p, ins, core, h)
    decreases |ins|, 1
  {
    hide BackedOnCore, Settled;
    var s, i := Run(p, Front(ins)), Last(ins);
    RunInvariant(p, Front(ins));
    if i.RelayBlock? {
      StepConserves(s, i, core, h);
    }
    EarlierOrNow(p, ins, core, h);
  }

  lemma {:induction false} EarlierOrNow(p: nat, ins: seq<Input>, core: Core, h: Hash)
    requires ins != []
    requires Hashes(CoreList(Run(p, Front(ins)), core), h) + PushedOn(PushedBy(p, Last(ins)), core, h) > 0
    ensures BackedOnCore(p, ins, core, h)
    decreases |ins|, 0
  {
    if PushedOn(PushedBy(p, Last(ins)), core, h) > 0 {
      PushedWasBacked(p, Last(ins).head.backed, core, h);
      assert ins[|ins| - 1] == Last(ins);
    } else {
      TrackedWasBacked(p, Front(ins), core, h);
      var k, b :| 0 <= k < |Front(ins)| && Front(ins)[k].RelayBlock? && b in Front(ins)[k].head.backed &&
                  b.paraId == p && b.coreIdx == core && b.candidateHash == h;
      assert ins[k] == Front(ins)[k];
    }
  }

  /** Nothing foreign is reported: an event about a candidate means that a block backed it for the para on its core. */
  lemma ReportedWasBacked(p: nat, ins: seq<Input>, core: Core, h: Hash, e: Event)
    requires ins != [] && e in CoreEvents(Reported(p, ins), core) && IsAbout(e, h)
    ensures BackedOnCore(p, ins, core, h)
  {
    var s, i := Run(p, Front(ins)), Last(ins);
    AboutIsListed(Reported(p, ins), CoreList(Reported(p, ins), core), e, h);
    RunInvariant(p, Front(ins));
    if i.RelayBlock? {
      StepOnCore(s, i, core, h);
    }
    EarlierOrNow(p, ins, core, h);
  }

  /*** Which cores and which bits ***/

  /** A core is kept when some assignment to it names the para, with the last such list. */
  lemma {:induction false} OwnCoresExactly(assignments: seq<(Core, seq<nat>)>, p: nat, core: Core)
    ensures core in OwnCores(assignments, p) <==>
            exists i :: 0 <= i < |assignments| && assignments[i].0 == core && p in assignments[i].1
    ensures core in OwnCores(assignments, p) ==>
            exists i :: 0 <= i < |assignments| && assignments[i] == (core, OwnCores(assignments, p)[core]) &&
                        p in assignments[i].1 &&
                        forall j :: i < j < |assignments| && assignments[j].0 == core ==> p !in assignments[j].1
  {
    if assignments != [] {
      var before := Front(assignments);
      OwnCoresExactly(before, p, core);
      assert assignments[|assignments| - 1] == Last(assignments);
      assert forall i :: 0 <= i < |before| ==> before[i] == assignments[i];
    }
  }

  /** The bitfields that have the bit of the core set. */
  function Setters(fields: seq<seq<bool>>, core: Core): set<nat> {
    set i: nat | i < |fields| && core < |fields[i]| && fields[i][core]
  }

  lemma {:induction false} BitCountIs(fields: seq<seq<bool>>, core: Core)
    ensures BitCount(fields, core) == |Setters(fields, core)|
  {
    if fields == [] {
      assert Setters(fields, core) == {};
    } else {
      var last: nat := |fields| - 1;
      BitCountIs(Front(fields), core);
      assert Setters(Front(fields), core) == Setters(fields, core) - {last};
    }
  }

  function TotalSize(groups: seq<seq<nat>>): nat { if groups == [] then 0 else |groups[0]| + TotalSize(groups[1..]) }

  lemma {:induction false} FlattenSize(groups: seq<seq<nat>>)
    ensures |Flatten(groups)| == TotalSize(groups)
  {
    if groups != [] {
      FlattenSize(Front(groups));
      SizeSnoc(Front(groups), Last(groups));
      assert Front(groups) + [Last(groups)] == groups;
    }
  }

  lemma {:induction false} SizeSnoc(groups: seq<seq<nat>>, g: seq<nat>)
    ensures TotalSize(groups + [g]) == TotalSize(groups) + |g|
  {
    if groups == [] {
      assert [g][1..] == [];
    } else {
      assert (groups + [g])[1..] == groups[1..] + [g];
      SizeSnoc(groups[1..], g);
    }
  }

  /** The availability a block gives a core: bitfields with its bit set, out of the validators of all groups. */
  function AvailabilityIn(d: BlockData, core: Core): BlockAvailability {
    BlockAvailability(|Setters(d.bitfields, core)|, TotalSize(d.groups))
  }

  lemma BitsMean(d: BlockData, core: Core)
    ensures BitsOf(d).At(core) == AvailabilityIn(d, core)
  {
    BitCountIs(d.bitfields, core);
    FlattenSize(d.groups);
  }

  /*** Which times ***/

  /**
   The times of a report, from the observed blocks: its block is the last one, it is a fork when the block before
   has the same height, and the previous time is that of the first block of the run of heights before this one.
   */
  lemma ReportedTimes(p: nat, ins: seq<Input>, order: seq<Core>)
    requires ins != [] && History(p, ins) != []
    ensures Reported(p, ins).current.Some?
    ensures var obs, r := History(p, ins), Object.Report(Reported(p, ins), order);
            var start := RunStart(obs);
            && r.block == Last(obs).block
            && (r.isFork <==> |obs| > 1 && obs[|obs| - 2].block.num == Last(obs).block.num)
            && r.prevTimestamp == if start == 0 then Last(obs).block.ts else obs[RunStart(obs[..start])].block.ts
  {
    var obs := History(p, ins);
    HistoryRefinement(p, ins);
    assert Reported(p, ins) == Run(p, ins).(newSession := Reported(p, ins).newSession,
                                            candidates := Reported(p, ins).candidates);
    hide Run, Reported, Notify, History;
  }

  /** A report announces the session notice that came right before its block, and no other. */
  lemma ReportedSession(p: nat, ins: seq<Input>, order: seq<Core>)
    requires ins != [] && Last(ins).RelayBlock? && Reported(p, ins).current.Some?
    ensures Object.Report(Reported(p, ins), order).session ==
            if |ins| > 1 && ins[|ins| - 2].NewSession? then Some(ins[|ins| - 2].index) else None
  {
    var before := Front(ins);
    assert before != [] ==> Last(before) == ins[|ins| - 2];
    InjectKeepsSession(Run(p, before), Last(ins));
    hide Inject, Notify;
  }

  lemma InjectKeepsSession(s: State, i: Input)
    requires i.RelayBlock?
    ensures Injected(s, i).newSession == s.newSession
  {
    if i.data.Some? {
      var own, s2 := Own(i.head.backed, s.paraId), Stage2(s, i.hash, i.head, i.data.value);
      BackAllFields(s2, i.head.number, own);
    }
  }

  /*** In which order ***/

  /** A core lists its events entry by entry, the oldest first. */
  lemma {:induction false} ListedInOrder(s: State, v: seq<Entry>, w: seq<Entry>)
    ensures ListEvents(s, v + w) == ListEvents(s, v) + ListEvents(s, w)
    decreases |w|
  {
    hide EntryEvents;
    if w == [] {
      assert v + w == v;
    } else {
      ListedInOrder(s, v, Front(w));
      assert Front(v + w) == v + Front(w) && Last(v + w) == Last(w);
      AppendAssoc(ListEvents(s, v), ListEvents(s, Front(w)), EntryEvents(s, Last(w)));
    }
  }

  lemma ListedAlone(s: State, e: Entry)
    ensures ListEvents(s, [e]) == EntryEvents(s, e)
  {
    assert Front([e]) == [];
  }

  /** And the report lists core by core, in the order of the visit. */
  lemma {:induction false} NotifiedInOrder(s: State, a: seq<Core>, b: seq<Core>)
    ensures Notify(s, a + b) == Notify(s, a) + Notify(s, b)
    decreases |b|
  {
    hide ListEvents;
    if b == [] {
      assert a + b == a;
    } else {
      NotifiedInOrder(s, a, Front(b));
      assert Front(a + b) == a + Front(b) && Last(a + b) == Last(b);
      AppendAssoc(Notify(s, a), Notify(s, Front(b)), CoreEvents(s, Last(b)));
    }
  }

  lemma NotifiedAlone(s: State, core: Core)
    ensures Notify(s, [core]) == CoreEvents(s, core)
  {
    assert Front([core]) == [];
  }
}
