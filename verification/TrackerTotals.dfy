/** Conservation over the whole event stream, whatever order the hash maps are visited in. */
module TrackerTotals {
  import opened Prelude
  import opened BlockInfo
  import opened TrackerSpec
  import opened TrackerRuns

  function Sum(cores: seq<Core>, g: Core -> nat): nat {
    if cores == [] then 0 else Sum(Front(cores), g) + g(Last(cores))
  }

  lemma {:induction false} SumZero(cores: seq<Core>, g: Core -> nat)
    requires forall c :: c in cores ==> g(c) == 0
    ensures Sum(cores, g) == 0
  {
    if cores != [] {
      SumZero(Front(cores), g);
    }
  }

  lemma {:induction false} SumWithout(cores: seq<Core>, k: nat, g: Core -> nat)
    requires k < |cores|
    ensures Sum(cores, g) == Sum(cores[..k] + cores[k + 1..], g) + g(cores[k])
  {
    var rest := cores[..k] + cores[k + 1..];
    if k == |cores| - 1 {
      assert rest == Front(cores);
    } else {
      SumWithout(Front(cores), k, g);
      assert Front(rest) == Front(cores)[..k] + Front(cores)[k + 1..];
    }
  }

  lemma RemoveAt(b: seq<Core>, k: nat)
    requires NoDup(b) && k < |b|
    ensures NoDup(b[..k] + b[k + 1..])
    ensures forall c :: c in b[..k] + b[k + 1..] <==> c in b && c != b[k]
  {
    var rest := b[..k] + b[k + 1..];
    forall c
      ensures c in rest <==> c in b && c != b[k]
    {
      if c in b && c != b[k] {
        var j :| 0 <= j < |b| && b[j] == c;
        assert rest[if j < k then j else j - 1] == c;
      }
    }
  }

  /** A sum does not depend on the order, nor on cores that contribute nothing. */
  lemma {:induction false} SumAgrees(a: seq<Core>, b: seq<Core>, g: Core -> nat)
    requires NoDup(a) && NoDup(b)
    requires forall c :: (c in a) != (c in b) ==> g(c) == 0
    ensures Sum(a, g) == Sum(b, g)
    decreases |a|
  {
    if a == [] {
      SumZero(b, g);
    } else {
      RemoveAt(a, |a| - 1);
      assert a[..|a| - 1] + a[|a|..] == Front(a);
      if Last(a) !in b {
        SumAgrees(Front(a), b, g);
      } else {
        var k :| 0 <= k < |b| && b[k] == Last(a);
        SumWithout(b, k, g);
        RemoveAt(b, k);
        SumAgrees(Front(a), b[..k] + b[k + 1..], g);
      }
    }
  }

  lemma {:induction false} SumBalance(cores: seq<Core>, a: Core -> nat, b: Core -> nat, x: Core -> nat, y: Core -> nat,
                                      z: Core -> nat)
    requires forall c :: a(c) + b(c) == x(c) + y(c) + z(c)
    ensures Sum(cores, a) + Sum(cores, b) == Sum(cores, x) + Sum(cores, y) + Sum(cores, z)
  {
    if cores != [] {
      SumBalance(Front(cores), a, b, x, y, z);
    }
  }

  lemma {:induction false} Listing(keys: set<Core>) returns (order: seq<Core>)
    ensures Enumerates(order, keys)
    decreases |keys|
  {
    if keys == {} {
      order := [];
    } else {
      var c :| c in keys;
      order := Listing(keys - {c});
      order := order + [c];
    }
  }

  function PushCount(own: seq<BackedCandidateInfo>, h: Hash): nat {
    if own == [] then 0 else PushCount(Front(own), h) + (if Last(own).candidateHash == h then 1 else 0)
  }

  function PushedIn(paraId: nat, ins: seq<Input>, h: Hash): nat {
    if ins == [] then 0 else PushedIn(paraId, Front(ins), h) + PushCount(PushedBy(paraId, Last(ins)), h)
  }

  function OwnCoreSet(own: seq<BackedCandidateInfo>): set<Core> { set b | b in own :: b.coreIdx }

  lemma {:induction false} SumPushed(cores: seq<Core>, own: seq<BackedCandidateInfo>, h: Hash)
    requires NoDup(cores) && forall b :: b in own ==> b.coreIdx in cores
    ensures Sum(cores, (c: Core) => PushedOn(own, c, h)) == PushCount(own, h)
  {
    var g := (c: Core) => PushedOn(own, c, h);
    if own == [] {
      SumZero(cores, g);
    } else {
      SumPushed(cores, Front(own), h);
      var f := (c: Core) => PushedOn(Front(own), c, h);
      var one := (c: Core) => if Last(own).coreIdx == c && Last(own).candidateHash == h then 1 else 0;
      var none := (c: Core) => 0;
      SumBalance(cores, f, one, g, none, none);
      SumZero(cores, none);
      assert Last(own) in own;
      assert NoDup([Last(own).coreIdx]);
      SumAgrees(cores, [Last(own).coreIdx], one);
      assert Front([Last(own).coreIdx]) == [];
    }
  }

  /*** The live candidates and the events of one visit of the map ***/

  function LiveCount(s: State, order: seq<Core>, h: Hash): nat {
    Sum(order, (c: Core) => Hashes(CoreList(s, c), h))
  }

  lemma {:induction false} NotifySums(s: State, order: seq<Core>, h: Hash)
    ensures IncludedHashes(Notify(s, order), h) == Sum(order, (c: Core) => IncludedHashes(CoreEvents(s, c), h))
    ensures DroppedHashes(Notify(s, order), h) == Sum(order, (c: Core) => DroppedHashes(CoreEvents(s, c), h))
  {
    if order != [] {
      NotifySums(s, Front(order), h);
      IncludedConcat(Notify(s, Front(order)), CoreEvents(s, Last(order)), h);
    }
  }

  /** `StepConserves` summed over any list of cores that covers the block's own candidates. */
  lemma StepOverCores(s: State, i: Input, all: seq<Core>, h: Hash)
    requires Settled(s) && i.RelayBlock?
    requires NoDup(all) && forall b :: b in PushedBy(s.paraId, i) ==> b.coreIdx in all
    ensures LiveCount(s, all, h) + PushCount(PushedBy(s.paraId, i), h) ==
            IncludedHashes(Notify(Injected(s, i), all), h) + DroppedHashes(Notify(Injected(s, i), all), h) +
            LiveCount(After(s, i), all, h)
  {
    var s', own := Injected(s, i), PushedBy(s.paraId, i);
    var live := (c: Core) => Hashes(CoreList(s, c), h);
    var pushed := (c: Core) => PushedOn(own, c, h);
    var inc := (c: Core) => IncludedHashes(CoreEvents(s', c), h);
    var dropped := (c: Core) => DroppedHashes(CoreEvents(s', c), h);
    var kept := (c: Core) => Hashes(CoreList(After(s, i), c), h);
    forall c: Core
      ensures live(c) + pushed(c) == inc(c) + dropped(c) + kept(c)
    {
      StepConserves(s, i, c, h);
    }
    SumBalance(all, live, pushed, inc, dropped, kept);
    SumPushed(all, own, h);
    NotifySums(s', all, h);
  }

  lemma LiveCountAgrees(s: State, order: seq<Core>, all: seq<Core>, h: Hash)
    requires Enumerates(order, s.candidates.Keys) && NoDup(all)
    requires forall c :: c in s.candidates ==> c in all
    ensures LiveCount(s, order, h) == LiveCount(s, all, h)
  {
    SumAgrees(order, all, (c: Core) => Hashes(CoreList(s, c), h));
  }

  lemma NotifyAgrees(s: State, order: seq<Core>, all: seq<Core>, h: Hash)
    requires Enumerates(order, s.candidates.Keys) && NoDup(all)
    requires forall c :: c in s.candidates ==> c in all
    ensures IncludedHashes(Notify(s, order), h) == IncludedHashes(Notify(s, all), h)
    ensures DroppedHashes(Notify(s, order), h) == DroppedHashes(Notify(s, all), h)
  {
    NotifySums(s, order, h);
    NotifySums(s, all, h);
    SumAgrees(order, all, (c: Core) => IncludedHashes(CoreEvents(s, c), h));
    SumAgrees(order, all, (c: Core) => DroppedHashes(CoreEvents(s, c), h));
  }

  /** One block: what was live or newly backed is reported Included, reported Dropped, or live afterwards. */
  lemma StepTotal(s: State, i: Input, before: seq<Core>, visit: seq<Core>, after: seq<Core>, h: Hash)
    requires Settled(s) && i.RelayBlock?
    requires Enumerates(before, s.candidates.Keys)
    requires Enumerates(visit, Injected(s, i).candidates.Keys)
    requires Enumerates(after, After(s, i).candidates.Keys)
    ensures LiveCount(s, before, h) + PushCount(PushedBy(s.paraId, i), h) ==
            IncludedHashes(Notify(Injected(s, i), visit), h) + DroppedHashes(Notify(Injected(s, i), visit), h) +
            LiveCount(After(s, i), after, h)
  {
    var own := PushedBy(s.paraId, i);
    var all := Listing(s.candidates.Keys + Injected(s, i).candidates.Keys + After(s, i).candidates.Keys +
                       OwnCoreSet(own));
    StepOverCores(s, i, all, h);
    LiveCountAgrees(s, before, all, h);
    NotifyAgrees(Injected(s, i), visit, all, h);
    LiveCountAgrees(After(s, i), after, all, h);
  }

  /** The events of a run when block `k` visits the map in the order `orders[k]`. */
  function EventStream(paraId: nat, ins: seq<Input>, orders: seq<seq<Core>>): seq<Event>
    requires |orders| == |ins|
  {
    if ins == [] then []
    else if Reports(Run(paraId, Front(ins)), Last(ins))
    then EventStream(paraId, Front(ins), Front(orders)) + Notify(Reported(paraId, ins), Last(orders))
    else EventStream(paraId, Front(ins), Front(orders))
  }

  ghost predicate ValidOrders(paraId: nat, ins: seq<Input>, orders: seq<seq<Core>>) {
    |orders| == |ins| && forall k :: 0 <= k < |ins| ==>
        Enumerates(orders[k], Reported(paraId, ins[..k + 1]).candidates.Keys)
  }

  /**
   Conservation of candidates: over any run, with forks and missing inherents, each candidate that was
   pushed is reported Included once, or reported Dropped once, or is still tracked at the end.
   */
  lemma {:induction false} Conservation(paraId: nat, ins: seq<Input>, orders: seq<seq<Core>>, final: seq<Core>, h: Hash)
    requires ValidOrders(paraId, ins, orders)
    requires Enumerates(final, Run(paraId, ins).candidates.Keys)
    ensures PushedIn(paraId, ins, h) ==
            IncludedHashes(EventStream(paraId, ins, orders), h) + DroppedHashes(EventStream(paraId, ins, orders), h) +
            LiveCount(Run(paraId, ins), final, h)
  {
    if ins == [] {
      SumZero(final, (c: Core) => Hashes(CoreList(Run(paraId, ins), c), h));
    } else {
      var s, i := Run(paraId, Front(ins)), Last(ins);
      var before := Listing(s.candidates.Keys);
      assert ins[..|ins|] == ins;
      forall k | 0 <= k < |ins| - 1
        ensures Enumerates(Front(orders)[k], Reported(paraId, Front(ins)[..k + 1]).candidates.Keys)
      {
        assert Front(ins)[..k + 1] == ins[..k + 1];
      }
      Conservation(paraId, Front(ins), Front(orders), before, h);
      RunInvariant(paraId, Front(ins));
      InjectKeepsPara(s, i);
      if i.RelayBlock? {
        StepTotal(s, i, before, Last(orders), final, h);
        IncludedConcat(EventStream(paraId, Front(ins), Front(orders)), Notify(Reported(paraId, ins), Last(orders)), h);
      } else {
        SumAgrees(before, final, (c: Core) => Hashes(CoreList(s, c), h));
        SumExt(final, (c: Core) => Hashes(CoreList(s, c), h), (c: Core) => Hashes(CoreList(Run(paraId, ins), c), h));
      }
    }
  }

  lemma {:induction false} SumExt(cores: seq<Core>, f: Core -> nat, g: Core -> nat)
    requires forall c :: f(c) == g(c)
    ensures Sum(cores, f) == Sum(cores, g)
  {
    if cores != [] {
      SumExt(Front(cores), f, g);
    }
  }
}
