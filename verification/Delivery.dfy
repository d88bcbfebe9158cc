/** From the collector to the trackers: the heights it publishes meet what its consumers assume. */
module Delivery {
  import opened Prelude
  import C = CollectorSpec
  import CR = CollectorRuns
  import H = TrackerHistory
  import R = TrackerRuns
  import T = TrackerSpec
  import W = Watcher
  import Q = TrackerReports
  import F = TrackerFates
  import E = Decoders

  type Message = W.Message<C.NewHeadEvent>

  /*** The broadcast channel and the watcher ***/

  function RoundHeads(round: C.Round, order: seq<C.ParaId>): seq<Message>
    requires forall p :: p in order ==> p in round
  {
    seq(|order|, i requires 0 <= i < |order| => W.NewHead(order[i], round[order[i]].number, round[order[i]]))
  }

  ghost predicate ValidOrders(rounds: seq<C.Round>, orders: seq<seq<C.ParaId>>) {
    |orders| == |rounds| && forall i :: 0 <= i < |rounds| ==> Enumerates(orders[i], rounds[i].Keys)
  }

  /** The heads of the broadcast channel when round `i` is sent in the order `orders[i]`. */
  ghost function BroadcastHeads(rounds: seq<C.Round>, orders: seq<seq<C.ParaId>>): seq<Message>
    requires ValidOrders(rounds, orders)
  {
    if rounds == [] then []
    else
      assert Enumerates(Last(orders), Last(rounds).Keys);
      BroadcastHeads(Front(rounds), Front(orders)) + RoundHeads(Last(rounds), Last(orders))
  }

  /** The heads among the messages of a channel, which also carries session notices. */
  function Heads(msgs: seq<Message>): seq<Message> {
    if msgs == [] then []
    else if Last(msgs).NewHead? then Heads(Front(msgs)) + [Last(msgs)]
    else Heads(Front(msgs))
  }

  ghost predicate Below(msgs: seq<Message>, height: u32) { forall m :: m in msgs && m.NewHead? ==> m.number < height }

  lemma {:induction false} HeadsMembers(msgs: seq<Message>, m: Message)
    ensures m in Heads(msgs) <==> m in msgs && m.NewHead?
  {
    if msgs != [] {
      HeadsMembers(Front(msgs), m);
      assert msgs == Front(msgs) + [Last(msgs)];
    }
  }

  lemma {:induction false} HeadsDecide(msgs: seq<Message>)
    requires W.NonDecreasing(Heads(msgs))
    ensures W.NonDecreasing(msgs)
  {
    if msgs != [] {
      var heads := Heads(msgs);
      if Last(msgs).NewHead? {
        assert Front(heads) == Heads(Front(msgs));
        forall m | m in Front(msgs) && m.NewHead?
          ensures m.number <= Last(msgs).number
        {
          HeadsMembers(Front(msgs), m);
          var i :| 0 <= i < |Front(heads)| && Front(heads)[i] == m;
          assert heads[i] == m && heads[|heads| - 1] == Last(msgs);
        }
      }
      HeadsDecide(Front(msgs));
      forall i, j | 0 <= i < j < |msgs| && msgs[i].NewHead? && msgs[j].NewHead?
        ensures msgs[i].number <= msgs[j].number
      {
        assert msgs[i] == Front(msgs)[i];
        assert j < |msgs| - 1 ==> msgs[j] == Front(msgs)[j];
      }
    }
  }

  /** A round whose events carry `height`, after heads below it. */
  lemma RoundAppended(before: seq<Message>, round: C.Round, order: seq<C.ParaId>, height: u32, number: u32)
    requires W.NonDecreasing(before) && Below(before, height) && height < number
    requires forall p :: p in order ==> p in round && round[p].number == height
    ensures W.NonDecreasing(before + RoundHeads(round, order)) && Below(before + RoundHeads(round, order), number)
  {
    var all := before + RoundHeads(round, order);
    forall i, j | 0 <= i < j < |all| && all[i].NewHead? && all[j].NewHead?
      ensures all[i].number <= all[j].number
    {
      assert i < |before| ==> all[i] == before[i] && before[i] in before;
    }
  }

  lemma {:induction false} BroadcastOrdered(rounds: seq<C.Round>, orders: seq<seq<C.ParaId>>, number: u32)
    requires ValidOrders(rounds, orders) && CR.Ascending(rounds, number) && SameHeight(rounds)
    ensures W.NonDecreasing(BroadcastHeads(rounds, orders)) && Below(BroadcastHeads(rounds, orders), number)
  {
    if rounds != [] {
      var round, order := rounds[|rounds| - 1], orders[|orders| - 1];
      assert Enumerates(order, round.Keys);
      if order == [] {
        assert RoundHeads(round, order) == [];
        AscendingFront(rounds, number, number);
        BroadcastOrdered(Front(rounds), Front(orders), number);
      } else {
        assert order[0] in order && order[0] in Last(rounds) && Last(rounds) == round;
        var height := round[order[0]].number;
        AscendingFront(rounds, number, height);
        BroadcastOrdered(Front(rounds), Front(orders), height);
        RoundAppended(BroadcastHeads(Front(rounds), Front(orders)), round, order, height, number);
      }
    }
  }

  /** All events of one round carry the same height. */
  ghost predicate SameHeight(rounds: seq<C.Round>) {
    forall i, p, q :: 0 <= i < |rounds| && p in rounds[i] && q in rounds[i] ==>
        rounds[i][p].number == rounds[i][q].number
  }

  lemma AscendingFront(rounds: seq<C.Round>, number: u32, height: u32)
    requires rounds != [] && CR.Ascending(rounds, number) && SameHeight(rounds)
    requires height == number || exists p :: p in Last(rounds) && Last(rounds)[p].number == height
    ensures CR.Ascending(Front(rounds), height) && SameHeight(Front(rounds))
  {
    var front := Front(rounds);
    assert forall i :: 0 <= i < |front| ==> front[i] == rounds[i];
    if height != number {
      var q :| q in Last(rounds) && Last(rounds)[q].number == height;
      assert q in rounds[|rounds| - 1];
    }
  }

  lemma {:induction false} RoundsShareHeights(cfg: C.Config, maxBlocks: nat, ops: seq<C.Op>)
    ensures SameHeight(C.Run(cfg, maxBlocks, ops).broadcast)
  {
    if ops != [] {
      RoundsShareHeights(cfg, maxBlocks, Front(ops));
      var s, op := C.Run(cfg, maxBlocks, Front(ops)), Last(ops);
      if CR.Publishes(s, op) {
        CR.PublishRounds(s, cfg, op);
      } else {
        CR.QuietStep(s, cfg, op);
      }
    }
  }

  /**
   What the watcher receives from a run of the collector never goes back in height, in whatever order rounds are sent.
   */
  lemma BroadcastIsNonDecreasing(cfg: C.Config, maxBlocks: nat, ops: seq<C.Op>, orders: seq<seq<C.ParaId>>,
                                 msgs: seq<Message>)
    requires ValidOrders(C.Run(cfg, maxBlocks, ops).broadcast, orders)
    requires Heads(msgs) == BroadcastHeads(C.Run(cfg, maxBlocks, ops).broadcast, orders)
    ensures W.NonDecreasing(msgs)
  {
    CR.HeightsIncrease(cfg, maxBlocks, ops);
    RoundsShareHeights(cfg, maxBlocks, ops);
    BroadcastOrdered(C.Run(cfg, maxBlocks, ops).broadcast, orders, C.Run(cfg, maxBlocks, ops).number);
    HeadsDecide(msgs);
  }

  /** So behind the collector the watcher keeps exactly the active paras, with no condition on the heads that arrive. */
  lemma WatcherKeepsExactly(cfg: C.Config, maxBlocks: nat, ops: seq<C.Op>, orders: seq<seq<C.ParaId>>,
                            msgs: seq<Message>, p: C.ParaId)
    requires ValidOrders(C.Run(cfg, maxBlocks, ops).broadcast, orders)
    requires Heads(msgs) == BroadcastHeads(C.Run(cfg, maxBlocks, ops).broadcast, orders)
    ensures p in W.Run(msgs).inboxes <==> W.Active(msgs, p)
    ensures p in W.Run(msgs).lastBlocks ==>
              W.Run(msgs).lastBlocks[p] <= W.TopHeight(msgs) <= W.Run(msgs).lastBlocks[p] + W.STALL
  {
    BroadcastIsNonDecreasing(cfg, maxBlocks, ops, orders, msgs);
    W.KeptExactly(msgs, p);
  }

  /*** A subscriber and its tracker ***/

  function TrackerHead(e: C.NewHeadEvent): T.NewHead { T.NewHead(e.number, e.backed, e.included) }

  /** The blocks a tracker is asked to inject: every hash of every event, with the event. */
  function Feed(rounds: seq<C.Round>, p: C.ParaId): seq<(Hash, T.NewHead)> {
    if rounds == [] then []
    else if p in Last(rounds) then Feed(Front(rounds), p) + EventFeed(Last(rounds)[p])
    else Feed(Front(rounds), p)
  }

  function EventFeed(e: C.NewHeadEvent): seq<(Hash, T.NewHead)> {
    seq(|e.hashes|, i requires 0 <= i < |e.hashes| => (e.hashes[i], TrackerHead(e)))
  }

  /** The blocks among the inputs of a tracker; what the store holds about them is arbitrary. */
  function Injections(ins: seq<R.Input>): seq<(Hash, T.NewHead)> {
    if ins == [] then []
    else if Last(ins).RelayBlock? then Injections(Front(ins)) + [(Last(ins).hash, Last(ins).head)]
    else Injections(Front(ins))
  }

  predicate Ordered(feed: seq<(Hash, T.NewHead)>) {
    forall i, j :: 0 <= i < j < |feed| ==> feed[i].1.number <= feed[j].1.number
  }

  lemma OrderedConcat(a: seq<(Hash, T.NewHead)>, b: seq<(Hash, T.NewHead)>, height: u32)
    requires Ordered(a) && (forall x :: x in a ==> x.1.number < height)
    requires forall i :: 0 <= i < |b| ==> b[i].1.number == height
    ensures Ordered(a + b) && forall x :: x in a + b ==> x.1.number <= height
  {
    assert forall i :: 0 <= i < |a| ==> a[i] in a;
  }

  lemma EventHeights(e: C.NewHeadEvent)
    ensures forall i :: 0 <= i < |EventFeed(e)| ==> EventFeed(e)[i].1.number == e.number
  {
    forall i | 0 <= i < |EventFeed(e)|
      ensures EventFeed(e)[i].1.number == e.number
    {
      assert EventFeed(e)[i] == (e.hashes[i], TrackerHead(e));
    }
  }

  lemma {:induction false} FeedOrdered(rounds: seq<C.Round>, p: C.ParaId, number: u32)
    requires CR.Ascending(rounds, number)
    ensures Ordered(Feed(rounds, p)) && forall x :: x in Feed(rounds, p) ==> x.1.number < number
  {
    if rounds != [] {
      var front := Front(rounds);
      assert forall i :: 0 <= i < |front| ==> front[i] == rounds[i];
      if p in Last(rounds) {
        var height := rounds[|rounds| - 1][p].number;
        assert forall i, q :: 0 <= i < |front| && q in front[i] ==> rounds[i][q].number < height;
        FeedOrdered(front, p, height);
        EventHeights(rounds[|rounds| - 1][p]);
        OrderedConcat(Feed(front, p), EventFeed(rounds[|rounds| - 1][p]), height);
      } else {
        FeedOrdered(front, p, number);
      }
    }
  }

  lemma OrderedSnoc(feed: seq<(Hash, T.NewHead)>, x: (Hash, T.NewHead))
    requires Ordered(feed + [x])
    ensures Ordered(feed) && (feed != [] ==> Last(feed).1.number <= x.1.number)
  {
    var longer := feed + [x];
    assert forall i :: 0 <= i < |feed| ==> feed[i] == longer[i];
    assert longer[|feed|] == x;
  }

  lemma ObservedSnoc(obs: seq<H.Observed>, o: H.Observed, bound: u32)
    requires H.NonDecreasing(obs) && (forall x :: x in obs ==> x.block.num <= bound) && bound <= o.block.num
    ensures H.NonDecreasing(obs + [o])
  {
    assert forall i :: 0 <= i < |obs| ==> obs[i] in obs;
  }

  /** Bounded by the last head of the feed, or by anything when there was none. */
  ghost predicate Bounded(obs: seq<H.Observed>, feed: seq<(Hash, T.NewHead)>) {
    forall o :: o in obs ==> feed != [] && o.block.num <= Last(feed).1.number
  }

  lemma {:induction false} HistoryOrdered(paraId: nat, ins: seq<R.Input>)
    requires Ordered(Injections(ins))
    ensures H.NonDecreasing(H.History(paraId, ins)) && Bounded(H.History(paraId, ins), Injections(ins))
  {
    if ins != [] {
      var feed, before := Injections(ins), Injections(Front(ins));
      var obs := H.History(paraId, Front(ins));
      if Last(ins).RelayBlock? {
        OrderedSnoc(before, Last(feed));
      }
      HistoryOrdered(paraId, Front(ins));
      if Last(ins).RelayBlock? && Last(ins).data.Some? {
        var o := Last(H.History(paraId, ins));
        assert H.History(paraId, ins) == obs + [o] && o.block.num == Last(feed).1.number;
        hide H.History, Injections, H.NonDecreasing;
        ObservedSnoc(obs, o, if before == [] then 0 else Last(before).1.number);
      }
    }
  }

  /** A tracker behind the collector, anywhere in its feed, observes heights that never go down. */
  lemma FedHistoryIsNonDecreasing(cfg: C.Config, maxBlocks: nat, ops: seq<C.Op>, p: C.ParaId, ins: seq<R.Input>)
    requires Injections(ins) <= Feed(C.Run(cfg, maxBlocks, ops).subscribed, p)
    ensures H.NonDecreasing(H.History(p, ins))
  {
    CR.HeightsIncrease(cfg, maxBlocks, ops);
    FeedOrdered(C.Run(cfg, maxBlocks, ops).subscribed, p, C.Run(cfg, maxBlocks, ops).number);
    var feed := Feed(C.Run(cfg, maxBlocks, ops).subscribed, p);
    assert forall i :: 0 <= i < |Injections(ins)| ==> Injections(ins)[i] == feed[i];
    HistoryOrdered(p, ins);
  }

  /** So its skipped slots are safe with no condition on the heads that arrive. */
  lemma FedSkippedSlotIsSafe(cfg: C.Config, maxBlocks: nat, ops: seq<C.Op>, p: C.ParaId, ins: seq<R.Input>, core: nat)
    requires Injections(ins) <= Feed(C.Run(cfg, maxBlocks, ops).subscribed, p)
    requires ins != [] && Last(ins).RelayBlock?
    ensures var obs := H.History(p, ins);
            T.EvSkipped in R.CoreEvents(R.Reported(p, ins), core) ==>
              && Last(ins).data.Some?
              && forall k :: 0 <= k < |obs| && obs[k].block.num == Last(ins).head.number ==> obs[k].own == []
  {
    FedHistoryIsNonDecreasing(cfg, maxBlocks, ops, p, ins);
    H.SkippedSlotIsSafe(p, ins, core);
  }

  /*** What a fed tracker reports was accepted by the collector ***/

  lemma {:induction false} InjectionsMember(ins: seq<R.Input>, k: nat)
    requires k < |ins| && ins[k].RelayBlock?
    ensures (ins[k].hash, ins[k].head) in Injections(ins)
  {
    if k < |ins| - 1 {
      InjectionsMember(Front(ins), k);
    }
  }

  lemma {:induction false} FeedMember(rounds: seq<C.Round>, p: C.ParaId, x: (Hash, T.NewHead))
    requires x in Feed(rounds, p)
    ensures exists i :: 0 <= i < |rounds| && p in rounds[i] && x.1 == TrackerHead(rounds[i][p])
  {
    var last := Last(rounds);
    assert rounds[|rounds| - 1] == last;
    if p in last && x in EventFeed(last[p]) {
      var k :| 0 <= k < |EventFeed(last[p])| && EventFeed(last[p])[k] == x;
      assert x.1 == TrackerHead(last[p]);
    } else {
      FeedMember(Front(rounds), p, x);
      var i :| 0 <= i < |Front(rounds)| && p in Front(rounds)[i] && x.1 == TrackerHead(Front(rounds)[i][p]);
      assert rounds[i] == Front(rounds)[i];
    }
  }

  lemma {:induction false} SentMember(rounds: seq<C.Round>, p: C.ParaId, f: CR.Field, i: nat, item: CR.Item)
    requires i < |rounds| && p in rounds[i] && item in CR.Contents(rounds[i][p], f)
    ensures CR.At(rounds[i][p].number, item) in CR.Sent(rounds, p, f)
  {
    hide CR.Contents;
    if i < |rounds| - 1 {
      SentMember(Front(rounds), p, f, i, item);
    } else {
      var items := CR.Contents(rounds[i][p], f);
      var k :| 0 <= k < |items| && items[k] == item;
      assert CR.Tag(rounds[i][p].number, items)[k] == CR.At(rounds[i][p].number, item);
    }
  }

  lemma {:induction false} AcceptedMember(cfg: C.Config, maxBlocks: nat, ops: seq<C.Op>, p: C.ParaId, f: CR.Field,
                                          t: CR.Tagged) returns (j: nat)
    requires t in CR.Accepted(cfg, maxBlocks, ops, p, f)
    ensures j < |ops| && CR.NewItem(C.Run(cfg, maxBlocks, ops[..j]), ops[j], p, f) == Some(t)
  {
    hide C.Run, CR.NewItem;
    var before := CR.Accepted(cfg, maxBlocks, Front(ops), p, f);
    assert ops[..|ops| - 1] == Front(ops);
    if t in before {
      j := AcceptedMember(cfg, maxBlocks, Front(ops), p, f, t);
      assert Front(ops)[..j] == ops[..j];
    } else {
      j := |ops| - 1;
    }
  }

  /** The collector accepted this event about the candidate at step `j`. */
  ghost predicate AcceptedAt(cfg: C.Config, maxBlocks: nat, ops: seq<C.Op>, j: nat, t: E.EventType, h: Hash) {
    && j < |ops| && ops[j].Candidate? && ops[j].ev.eventType == t && ops[j].ev.candidateHash == h
    && CR.AcceptsCandidate(C.Run(cfg, maxBlocks, ops[..j]), ops[j].ev, ops[j].fetched)
  }

  /** An item of a head that the tracker was fed was accepted by the collector in that field. */
  lemma FedItem(cfg: C.Config, maxBlocks: nat, ops: seq<C.Op>, p: C.ParaId, ins: seq<R.Input>, k: nat, f: CR.Field,
                i: nat, item: CR.Item) returns (j: nat, t: CR.Tagged)
    requires p in cfg.subscribers
    requires var rounds := C.Run(cfg, maxBlocks, ops).subscribed;
             i < |rounds| && p in rounds[i] && item in CR.Contents(rounds[i][p], f)
    ensures j < |ops| && CR.NewItem(C.Run(cfg, maxBlocks, ops[..j]), ops[j], p, f) == Some(t) && t.item == item
  {
    var s := C.Run(cfg, maxBlocks, ops);
    t := CR.At(s.subscribed[i][p].number, item);
    SentMember(s.subscribed, p, f, i, item);
    CR.HeadStreamConserves(cfg, maxBlocks, ops, p, f);
    hide *;
    assert t in CR.Sent(s.subscribed, p, f) + CR.Unsent(s, p, f);
    j := AcceptedMember(cfg, maxBlocks, ops, p, f, t);
  }

  /** The round whose event was injected at step `k`. */
  lemma FedRound(rounds: seq<C.Round>, p: C.ParaId, ins: seq<R.Input>, k: nat) returns (i: nat)
    requires Injections(ins) <= Feed(rounds, p) && k < |ins| && ins[k].RelayBlock?
    ensures i < |rounds| && p in rounds[i] && ins[k].head == TrackerHead(rounds[i][p])
  {
    InjectionsMember(ins, k);
    var x := (ins[k].hash, ins[k].head);
    var n :| 0 <= n < |Injections(ins)| && Injections(ins)[n] == x;
    assert Feed(rounds, p)[n] == x;
    FeedMember(rounds, p, x);
    i :| 0 <= i < |rounds| && p in rounds[i] && x.1 == TrackerHead(rounds[i][p]);
  }

  lemma BackedItem(e: C.NewHeadEvent, b: T.BackedCandidateInfo)
    requires b in e.backed
    ensures CR.OfBacked(b) in CR.Contents(e, CR.BackedField)
  {
    var k :| 0 <= k < |e.backed| && e.backed[k] == b;
    assert CR.BackedItems(e.backed)[k] == CR.OfBacked(b);
  }

  lemma IncludedItem(e: C.NewHeadEvent, h: Hash)
    requires h in e.included
    ensures CR.OfHash(h) in CR.Contents(e, CR.IncludedField)
  {
    var k :| 0 <= k < |e.included| && e.included[k] == h;
    assert CR.HashItems(e.included)[k] == CR.OfHash(h);
  }

  /**
   End to end: whatever a tracker behind the collector reports about a candidate on a core, the collector had
   accepted a backing of that candidate for this para on that core.
   */
  lemma FedReportWasBacked(cfg: C.Config, maxBlocks: nat, ops: seq<C.Op>, p: C.ParaId, ins: seq<R.Input>, core: nat,
                           h: Hash, e: T.Event) returns (j: nat)
    requires p in cfg.subscribers && Injections(ins) <= Feed(C.Run(cfg, maxBlocks, ops).subscribed, p)
    requires ins != [] && e in R.CoreEvents(R.Reported(p, ins), core) && Q.IsAbout(e, h)
    ensures AcceptedAt(cfg, maxBlocks, ops, j, E.Backed, h)
    ensures ops[j].ev.parachainId == p && ops[j].ev.coreIdx == core
  {
    Q.ReportedWasBacked(p, ins, core, h, e);
    var k: int, b :| 0 <= k < |ins| && ins[k].RelayBlock? && b in ins[k].head.backed &&
                     b.paraId == p && b.coreIdx == core && b.candidateHash == h;
    var rounds := C.Run(cfg, maxBlocks, ops).subscribed;
    var i := FedRound(rounds, p, ins, k);
    BackedItem(rounds[i][p], b);
    var t: CR.Tagged;
    hide C.Run, R.Reported, R.CoreEvents, Injections, Feed, CR.AcceptsCandidate, CR.Contents;
    j, t := FedItem(cfg, maxBlocks, ops, p, ins, k, CR.BackedField, i, CR.OfBacked(b));
  }

  /** And an inclusion is reported only after the collector accepted it. */
  lemma FedInclusionWasAccepted(cfg: C.Config, maxBlocks: nat, ops: seq<C.Op>, p: C.ParaId, ins: seq<R.Input>,
                                core: nat, h: Hash, bits: nat, max: nat) returns (j: nat)
    requires p in cfg.subscribers && Injections(ins) <= Feed(C.Run(cfg, maxBlocks, ops).subscribed, p)
    requires ins != [] && Last(ins).RelayBlock?
    requires T.EvIncluded(h, bits, max) in R.CoreEvents(R.Reported(p, ins), core)
    ensures AcceptedAt(cfg, maxBlocks, ops, j, E.Included, h)
  {
    InclusionInHead(p, ins, core, h, bits, max);
    hide R.Reported, R.CoreEvents;
    var rounds := C.Run(cfg, maxBlocks, ops).subscribed;
    var i := FedRound(rounds, p, ins, |ins| - 1);
    IncludedItem(rounds[i][p], h);
    var t: CR.Tagged;
    hide C.Run, R.Reported, R.CoreEvents, Injections, Feed, CR.AcceptsCandidate, CR.Contents;
    j, t := FedItem(cfg, maxBlocks, ops, p, ins, |ins| - 1, CR.IncludedField, i, CR.OfHash(h));
  }

  lemma InclusionInHead(p: nat, ins: seq<R.Input>, core: nat, h: Hash, bits: nat, max: nat)
    requires ins != [] && Last(ins).RelayBlock?
    requires T.EvIncluded(h, bits, max) in R.CoreEvents(R.Reported(p, ins), core)
    ensures h in Last(ins).head.included
  {
    var s, i := R.Run(p, Front(ins)), Last(ins);
    R.RunInvariant(p, Front(ins));
    if i.data.Some? {
      hide R.Run, R.CoreEvents, R.Settled, T.Inject;
      F.FatesReported(s, i.hash, i.head, i.data.value, core, h, bits, max);
    } else {
      NoInclusionAtRest(s, core, h, bits, max);
    }
  }

  lemma NoInclusionAtRest(s: T.State, core: nat, h: Hash, bits: nat, max: nat)
    requires R.Settled(s)
    ensures T.EvIncluded(h, bits, max) !in R.CoreEvents(s, core)
  {
    F.Settles(s, core);
    hide R.Settled;
    H.EventsInList(s, R.CoreList(s, core), T.EvIncluded(h, bits, max));
  }
}
