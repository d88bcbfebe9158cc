/** The broadcast watcher: one tracker per active para, started on its first head and dropped when it stalls. */
module Watcher {
  import opened Prelude

  type ParaId = nat

  datatype Message<H> = NewHead(para: ParaId, number: u32, head: H) | NewSession(session: u32)

  const STALL: u32 := 10

  /** `inboxes` holds what was sent to each live tracker; `lastBlocks` the height of its last head. */
  datatype State<H> = State(inboxes: map<ParaId, seq<Message<H>>>, lastBlocks: map<ParaId, u32>, best: u32)

  /** The largest last block, 0 when there is none. */
  ghost predicate IsHighest(m: u32, blocks: map<ParaId, u32>) {
    && (forall p :: p in blocks ==> blocks[p] <= m)
    && (m != 0 ==> exists p :: p in blocks && blocks[p] == m)
  }

  lemma {:induction false} HighestExists(blocks: map<ParaId, u32>)
    ensures exists m :: IsHighest(m, blocks)
    decreases |blocks|
  {
    if blocks == map[] {
      assert IsHighest(0, blocks);
    } else {
      var p :| p in blocks;
      var rest := blocks - {p};
      assert rest.Keys == blocks.Keys - {p} && |rest| == |rest.Keys| && |blocks| == |blocks.Keys|;
      HighestExists(rest);
      var m :| IsHighest(m, rest);
      var highest := if blocks[p] > m then blocks[p] else m;
      assert forall q :: q in blocks ==> q == p || (q in rest && rest[q] == blocks[q]);
      if highest != 0 && highest == m && blocks[p] != m {
        var q :| q in rest && rest[q] == m;
        assert q in blocks && blocks[q] == highest;
      }
      assert IsHighest(highest, blocks);
    }
  }

  ghost function Highest(blocks: map<ParaId, u32>): (m: u32)
    ensures IsHighest(m, blocks)
  {
    HighestExists(blocks);
    var m :| IsHighest(m, blocks);
    m
  }

  predicate Stalls(last: u32, highest: u32) { last + STALL < highest }

  ghost function Evict<H>(w: State<H>): State<H> {
    var highest := Highest(w.lastBlocks);
    var stalled := set p | p in w.lastBlocks && Stalls(w.lastBlocks[p], highest);
    w.(inboxes := w.inboxes - stalled, lastBlocks := w.lastBlocks - stalled)
  }

  function Deliver<H>(w: State<H>, p: ParaId, msg: Message<H>): map<ParaId, seq<Message<H>>> {
    w.inboxes[p := GetList(w.inboxes, p) + [msg]]
  }

  ghost function Step<H>(w: State<H>, msg: Message<H>): State<H> {
    match msg
    case NewHead(p, number, _) =>
      var told := w.(inboxes := Deliver(w, p, msg), lastBlocks := w.lastBlocks[p := number]);
      if number > w.best then Evict(told.(best := number)) else told
    case NewSession(_) => w.(inboxes := map p | p in w.inboxes :: w.inboxes[p] + [msg])
  }

  class BroadcastWatcher<H> {
    var inboxes: map<ParaId, seq<Message<H>>>
    var lastBlocks: map<ParaId, u32>
    var best: u32

    ghost function View(): State<H>
      reads this
    {
      State(inboxes, lastBlocks, best)
    }

    constructor ()
      ensures View() == State(map[], map[], 0)
    {
      inboxes, lastBlocks, best := map[], map[], 0;
    }

    method MaxBlock() returns (m: u32)
      ensures m == Highest(lastBlocks)
    {
      m := 0;
      var todo := lastBlocks.Keys;
      while todo != {}
        invariant todo <= lastBlocks.Keys
        invariant forall p :: p in lastBlocks && p !in todo ==> lastBlocks[p] <= m
        invariant m != 0 ==> exists p :: p in lastBlocks && lastBlocks[p] == m
      {
        var p :| p in todo;
        if lastBlocks[p] > m {
          m := lastBlocks[p];
        }
        todo := todo - {p};
      }
      HighestIsUnique(lastBlocks, m, Highest(lastBlocks));
    }

    method EvictStalled()
      modifies this
      ensures View() == Evict(old(View()))
    {
      var highest := MaxBlock();
      var threshold := if highest >= STALL then highest - STALL else 0;
      var todo := set p | p in lastBlocks && threshold > lastBlocks[p];
      ghost var stalled := todo;
      while todo != {}
        invariant todo <= stalled
        invariant lastBlocks == old(lastBlocks) - (stalled - todo) && inboxes == old(inboxes) - (stalled - todo)
        invariant best == old(best)
      {
        var p :| p in todo;
        lastBlocks := lastBlocks - {p};
        inboxes := inboxes - {p};
        todo := todo - {p};
      }
      assert stalled == set p | p in old(lastBlocks) && Stalls(old(lastBlocks)[p], highest);
    }

    method Receive(msg: Message<H>)
      modifies this
      ensures View() == Step(old(View()), msg)
    {
      match msg
      case NewHead(p, number, _) =>
        inboxes := inboxes[p := GetList(inboxes, p) + [msg]];
        lastBlocks := lastBlocks[p := number];
        if number > best {
          best := number;
          EvictStalled();
        }
      case NewSession(_) =>
        inboxes := map p | p in inboxes :: inboxes[p] + [msg];
    }
  }

  lemma HighestIsUnique(blocks: map<ParaId, u32>, a: u32, b: u32)
    requires IsHighest(a, blocks) && IsHighest(b, blocks)
    ensures a == b
  {
  }

  /*** Runs ***/

  ghost function Run<H>(msgs: seq<Message<H>>): State<H> {
    if msgs == [] then State(map[], map[], 0) else Step(Run(Front(msgs)), Last(msgs))
  }

  /** Every tracker has a last block and the other way round, in every run: no tracker is missed by an eviction. */
  lemma {:induction false} KeysAgree<H>(msgs: seq<Message<H>>)
    ensures Run(msgs).inboxes.Keys == Run(msgs).lastBlocks.Keys
  {
    if msgs != [] {
      KeysAgree(Front(msgs));
    }
  }

  ghost predicate NonDecreasing<H>(msgs: seq<Message<H>>) {
    forall i, j :: 0 <= i < j < |msgs| && msgs[i].NewHead? && msgs[j].NewHead? ==> msgs[i].number <= msgs[j].number
  }

  /** The height of the newest head, 0 before the first. */
  function TopHeight<H>(msgs: seq<Message<H>>): u32 {
    if msgs == [] then 0
    else if Last(msgs).NewHead? then Last(msgs).number
    else TopHeight(Front(msgs))
  }

  ghost predicate HeardAt<H>(msgs: seq<Message<H>>, p: ParaId, height: u32) {
    exists i :: 0 <= i < |msgs| && msgs[i].NewHead? && msgs[i].para == p && msgs[i].number == height
  }

  /** A head of the para arrived within the last `STALL` heights. */
  ghost predicate Active<H>(msgs: seq<Message<H>>, p: ParaId) {
    exists height: u32 :: HeardAt(msgs, p, height) && TopHeight(msgs) <= height + STALL
  }

  ghost predicate Bookkeeping<H>(w: State<H>, msgs: seq<Message<H>>, p: ParaId) {
    && w.best == TopHeight(msgs)
    && (p in w.lastBlocks ==> HeardAt(msgs, p, w.lastBlocks[p]) && w.lastBlocks[p] <= w.best <= w.lastBlocks[p] + STALL)
    && (forall height: u32 :: HeardAt(msgs, p, height) ==>
          height <= w.best && if p in w.lastBlocks then height <= w.lastBlocks[p] else height + STALL < w.best)
  }

  /** What one message does to the records of one para. */
  ghost predicate Moves<H>(w: State<H>, w': State<H>, msg: Message<H>, p: ParaId) {
    if msg.NewHead? then
      && w'.best == msg.number
      && (if msg.para == p then p in w'.lastBlocks && w'.lastBlocks[p] == msg.number
          else p in w'.lastBlocks <==> p in w.lastBlocks && !Stalls(w.lastBlocks[p], msg.number))
      && (p in w'.lastBlocks && msg.para != p ==> p in w.lastBlocks && w'.lastBlocks[p] == w.lastBlocks[p])
    else w'.best == w.best && w'.lastBlocks == w.lastBlocks
  }

  lemma StepMoves<H>(w: State<H>, msg: Message<H>, p: ParaId)
    requires msg.NewHead? ==> w.best <= msg.number
    requires forall q :: q in w.lastBlocks ==> w.lastBlocks[q] <= w.best <= w.lastBlocks[q] + STALL
    ensures Moves(w, Step(w, msg), msg, p)
  {
    if msg.NewHead? && msg.number > w.best {
      var blocks := w.lastBlocks[msg.para := msg.number];
      assert blocks[msg.para] == msg.number;
      HighestIsUnique(blocks, msg.number, Highest(blocks));
    }
  }

  lemma MovesKeepBooks<H>(w: State<H>, w': State<H>, msgs: seq<Message<H>>, p: ParaId)
    requires msgs != [] && Bookkeeping(w, Front(msgs), p) && Moves(w, w', Last(msgs), p)
    requires Last(msgs).NewHead? ==> w.best <= Last(msgs).number
    ensures Bookkeeping(w', msgs, p)
  {
    forall height: u32
      ensures HeardAt(msgs, p, height) <==>
              HeardAt(Front(msgs), p, height) ||
                  (Last(msgs).NewHead? && Last(msgs).para == p && Last(msgs).number == height)
    {
      HeardSnoc(msgs, p, height);
    }
  }

  lemma {:induction false} BooksKept<H>(msgs: seq<Message<H>>)
    requires NonDecreasing(msgs)
    ensures forall p :: Bookkeeping(Run(msgs), msgs, p)
  {
    if msgs != [] {
      BooksKept(Front(msgs));
      var w := Run(Front(msgs));
      if Last(msgs).NewHead? {
        TopIsHighest(msgs);
        assert Bookkeeping(w, Front(msgs), 0);
      }
      forall p
        ensures Bookkeeping(Run(msgs), msgs, p)
      {
        assert Bookkeeping(w, Front(msgs), p);
        assert forall q :: q in w.lastBlocks ==> Bookkeeping(w, Front(msgs), q);
        StepMoves(w, Last(msgs), p);
        MovesKeepBooks(w, Run(msgs), msgs, p);
      }
    }
  }

  /**
   With the non-decreasing heights the collector publishes, a para has a tracker exactly when one of its
   heads arrived within the last ten heights; every kept para is then within ten blocks of the newest.
   */
  lemma KeptExactly<H>(msgs: seq<Message<H>>, p: ParaId)
    requires NonDecreasing(msgs)
    ensures p in Run(msgs).inboxes <==> Active(msgs, p)
    ensures p in Run(msgs).lastBlocks ==> Run(msgs).lastBlocks[p] <= TopHeight(msgs) <= Run(msgs).lastBlocks[p] + STALL
  {
    KeysAgree(msgs);
    BooksKept(msgs);
    assert Bookkeeping(Run(msgs), msgs, p);
  }

  lemma HeardSnoc<H>(msgs: seq<Message<H>>, p: ParaId, height: u32)
    requires msgs != []
    ensures HeardAt(msgs, p, height) <==>
            HeardAt(Front(msgs), p, height) ||
                (Last(msgs).NewHead? && Last(msgs).para == p && Last(msgs).number == height)
  {
    if HeardAt(Front(msgs), p, height) {
      var i :| 0 <= i < |Front(msgs)| && Front(msgs)[i].NewHead? && Front(msgs)[i].para == p &&
          Front(msgs)[i].number == height;
      assert msgs[i] == Front(msgs)[i];
    }
    if Last(msgs).NewHead? && Last(msgs).para == p && Last(msgs).number == height {
      assert msgs[|msgs| - 1] == Last(msgs);
    }
  }

  lemma {:induction false} TopIsHighest<H>(msgs: seq<Message<H>>)
    requires NonDecreasing(msgs) && msgs != [] && Last(msgs).NewHead?
    ensures TopHeight(Front(msgs)) <= Last(msgs).number
  {
    TopIsHeard(Front(msgs));
  }

  lemma {:induction false} TopIsHeard<H>(msgs: seq<Message<H>>)
    ensures TopHeight(msgs) == 0 || exists i :: 0 <= i < |msgs| && msgs[i].NewHead? && msgs[i].number == TopHeight(msgs)
  {
    if msgs != [] {
      if Last(msgs).NewHead? {
        assert msgs[|msgs| - 1].number == TopHeight(msgs);
      } else {
        TopIsHeard(Front(msgs));
        if TopHeight(msgs) != 0 {
          var i :| 0 <= i < |Front(msgs)| && Front(msgs)[i].NewHead? && Front(msgs)[i].number == TopHeight(Front(msgs));
          assert msgs[i] == Front(msgs)[i];
        }
      }
    }
  }

  /*** What the trackers are told ***/

  /** A tracker is told the heads of its own para and every session. */
  function IsFor<H>(p: ParaId): Message<H> -> bool {
    (m: Message<H>) => m.NewSession? || m.para == p
  }

  /** The tracker of `p` was started by the message at `start`, a head of its para, and has lived ever since. */
  ghost predicate StartedAt<H>(msgs: seq<Message<H>>, p: ParaId, start: nat) {
    && start < |msgs| && msgs[start].NewHead? && msgs[start].para == p
    && p !in Run(msgs[..start]).inboxes
    && forall j :: start < j <= |msgs| ==> p in Run(msgs[..j]).inboxes
  }

  lemma StepTells<H>(w: State<H>, msg: Message<H>, p: ParaId)
    requires p in Step(w, msg).inboxes
    ensures var inbox := Step(w, msg).inboxes[p];
            if p in w.inboxes then inbox == if IsFor(p)(msg) then w.inboxes[p] + [msg] else w.inboxes[p]
            else msg.NewHead? && msg.para == p && inbox == [msg]
  {
  }

  /**
   In every run the inbox of a live tracker is exactly what arrived since it was last started, in order and once
   each: its own heads and all sessions.  A restart begins with the head that caused it and nothing before.
   */
  lemma {:induction false} InboxExactly<H(!new)>(msgs: seq<Message<H>>, p: ParaId) returns (start: nat)
    requires p in Run(msgs).inboxes
    ensures StartedAt(msgs, p, start)
    ensures Selects(msgs[start..], IsFor(p), Itself, Run(msgs).inboxes[p])
  {
    assert msgs != [];
    var w, msg := Run(Front(msgs)), Last(msgs);
    StepTells(w, msg, p);
    assert Run(msgs) == Step(w, msg);
    hide *;
    if p in w.inboxes {
      start := InboxExactly(Front(msgs), p);
      StaysStarted(msgs, p, start);
      SelectsSnoc(Front(msgs)[start..], IsFor(p), Itself, w.inboxes[p], msg);
      Rejoin(msgs, start);
    } else {
      start := |msgs| - 1;
      StartsNow(msgs, p);
    }
  }

  lemma Rejoin<H>(msgs: seq<Message<H>>, start: nat)
    requires start < |msgs|
    ensures Front(msgs)[start..] + [Last(msgs)] == msgs[start..]
  {
  }

  lemma StartsNow<H(!new)>(msgs: seq<Message<H>>, p: ParaId)
    requires msgs != [] && Last(msgs).NewHead? && Last(msgs).para == p
    requires p !in Run(Front(msgs)).inboxes && p in Run(msgs).inboxes
    ensures StartedAt(msgs, p, |msgs| - 1)
    ensures Selects(msgs[|msgs| - 1..], IsFor(p), Itself, [Last(msgs)])
  {
    hide Run, Selects;
    assert msgs[..|msgs|] == msgs && msgs[..|msgs| - 1] == Front(msgs);
    SelectsNothing(IsFor<H>(p), Itself<Message<H>>);
    SelectsSnoc([], IsFor(p), Itself, [], Last(msgs));
    assert [] + [Last(msgs)] == msgs[|msgs| - 1..];
  }

  lemma StaysStarted<H>(msgs: seq<Message<H>>, p: ParaId, start: nat)
    requires msgs != [] && StartedAt(Front(msgs), p, start) && p in Run(msgs).inboxes
    ensures StartedAt(msgs, p, start)
  {
    hide Run;
    assert Front(msgs)[..start] == msgs[..start] && msgs[..|msgs|] == msgs;
    forall j | start < j <= |msgs|
      ensures p in Run(msgs[..j]).inboxes
    {
      assert j < |msgs| ==> Front(msgs)[..j] == msgs[..j];
    }
  }

  /** The latest head of the para. */
  predicate LatestHead<H>(msgs: seq<Message<H>>, p: ParaId, k: nat) {
    && k < |msgs| && msgs[k].NewHead? && msgs[k].para == p
    && forall j :: k < j < |msgs| && msgs[j].NewHead? ==> msgs[j].para != p
  }

  /** The records of a run, for heights in any order. */
  ghost predicate Recorded<H>(w: State<H>, msgs: seq<Message<H>>) {
    && (forall i :: 0 <= i < |msgs| && msgs[i].NewHead? ==> msgs[i].number <= w.best)
    && (w.best > 0 ==> exists i :: 0 <= i < |msgs| && msgs[i].NewHead? && msgs[i].number == w.best)
    && (forall p :: p in w.lastBlocks ==> exists k: nat :: LatestHead(msgs, p, k) && msgs[k].number == w.lastBlocks[p])
  }

  lemma LastBlocksBelow<H>(w: State<H>, msgs: seq<Message<H>>)
    requires Recorded(w, msgs)
    ensures forall p :: p in w.lastBlocks ==> w.lastBlocks[p] <= w.best
  {
  }

  /** Who is still there after one head, with no assumption on its height. */
  lemma StepRecords<H>(w: State<H>, msg: Message<H>, p: ParaId)
    requires msg.NewHead? && (forall q :: q in w.lastBlocks ==> w.lastBlocks[q] <= w.best)
    ensures var w' := Step(w, msg);
            && w'.best == (if msg.number > w.best then msg.number else w.best)
            && (p in w'.lastBlocks <==>
                msg.para == p || (p in w.lastBlocks && !(msg.number > w.best && Stalls(w.lastBlocks[p], msg.number))))
            && (p in w'.lastBlocks ==> w'.lastBlocks[p] == if msg.para == p then msg.number else w.lastBlocks[p])
  {
    if msg.number > w.best {
      var blocks := w.lastBlocks[msg.para := msg.number];
      assert blocks[msg.para] == msg.number;
      HighestIsUnique(blocks, msg.number, Highest(blocks));
    }
  }

  lemma {:induction false} RunRecords<H>(msgs: seq<Message<H>>)
    ensures Recorded(Run(msgs), msgs)
  {
    if msgs != [] {
      var w, w', msg := Run(Front(msgs)), Run(msgs), Last(msgs);
      RunRecords(Front(msgs));
      LastBlocksBelow(w, Front(msgs));
      assert w' == Step(w, msg) && msgs[|msgs| - 1] == msg;
      if msg.NewHead? {
        StepRecords(w, msg, msg.para);
      }
      hide Run, Step;
      if w.best > 0 {
        var i :| 0 <= i < |Front(msgs)| && Front(msgs)[i].NewHead? && Front(msgs)[i].number == w.best;
        assert msgs[i].number == w.best;
      }
      forall i | 0 <= i < |msgs| && msgs[i].NewHead?
        ensures msgs[i].number <= w'.best
      {
        assert i < |msgs| - 1 ==> Front(msgs)[i] == msgs[i];
      }
      forall p | p in w'.lastBlocks
        ensures exists k: nat :: LatestHead(msgs, p, k) && msgs[k].number == w'.lastBlocks[p]
      {
        LatestRecorded(w, w', msgs, p);
      }
    }
  }

  lemma LatestRecorded<H>(w: State<H>, w': State<H>, msgs: seq<Message<H>>, p: ParaId)
    requires msgs != [] && Recorded(w, Front(msgs)) && w' == Step(w, Last(msgs)) && p in w'.lastBlocks
    ensures exists k: nat :: LatestHead(msgs, p, k) && msgs[k].number == w'.lastBlocks[p]
  {
    LastBlocksBelow(w, Front(msgs));
    if Last(msgs).NewHead? {
      StepRecords(w, Last(msgs), p);
    }
    if Last(msgs).NewHead? && Last(msgs).para == p {
      assert LatestHead(msgs, p, |msgs| - 1);
    } else {
      var k: nat :| LatestHead(Front(msgs), p, k) && Front(msgs)[k].number == w.lastBlocks[p];
      LatestStays(msgs, p, k);
    }
  }

  lemma LatestStays<H>(msgs: seq<Message<H>>, p: ParaId, k: nat)
    requires msgs != [] && LatestHead(Front(msgs), p, k) && !(Last(msgs).NewHead? && Last(msgs).para == p)
    ensures LatestHead(msgs, p, k) && msgs[k] == Front(msgs)[k]
  {
    forall j | k < j < |msgs| && msgs[j].NewHead?
      ensures msgs[j].para != p
    {
      assert j < |msgs| - 1 ==> msgs[j] == Front(msgs)[j];
    }
  }

  /** A head above every one before it, more than ten blocks above the latest head of `p`, which it does not concern. */
  ghost predicate OutrunBy<H>(before: seq<Message<H>>, msg: Message<H>, p: ParaId) {
    && msg.NewHead? && msg.para != p
    && (forall i :: 0 <= i < |before| && before[i].NewHead? ==> before[i].number < msg.number)
    && exists k: nat :: LatestHead(before, p, k) && before[k].number + 10 < msg.number
  }

  /** When a tracker ends, in any run: exactly when a newest head outruns the latest one of its para. */
  lemma EndsExactly<H>(msgs: seq<Message<H>>, p: ParaId)
    requires msgs != [] && p in Run(Front(msgs)).inboxes
    ensures p !in Run(msgs).inboxes <==> OutrunBy(Front(msgs), Last(msgs), p)
  {
    var w, before, msg := Run(Front(msgs)), Front(msgs), Last(msgs);
    KeysAgree(before);
    KeysAgree(msgs);
    RunRecords(before);
    assert Run(msgs) == Step(w, msg);
    hide Run, Step;
    LastBlocksBelow(w, before);
    if msg.NewHead? {
      StepRecords(w, msg, p);
      OutrunExactly(w, before, msg, p);
    } else {
      SessionKeeps(w, msg);
    }
  }

  lemma SessionKeeps<H>(w: State<H>, msg: Message<H>)
    requires msg.NewSession?
    ensures Step(w, msg).lastBlocks == w.lastBlocks
  {
  }

  lemma OneLatest<H>(msgs: seq<Message<H>>, p: ParaId, j: nat, k: nat)
    requires LatestHead(msgs, p, j) && LatestHead(msgs, p, k)
    ensures j == k
  {
  }

  lemma OutrunExactly<H>(w: State<H>, before: seq<Message<H>>, msg: Message<H>, p: ParaId)
    requires Recorded(w, before) && msg.NewHead? && p in w.lastBlocks
    ensures OutrunBy(before, msg, p) <==>
            msg.para != p && msg.number > w.best && Stalls(w.lastBlocks[p], msg.number)
  {
    var k: nat :| LatestHead(before, p, k) && before[k].number == w.lastBlocks[p];
    forall j: nat | LatestHead(before, p, j)
      ensures j == k
    {
      OneLatest(before, p, j, k);
    }
  }
}
