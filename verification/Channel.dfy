/** The priority channel: a bulk queue and a priority queue, shared by cloned senders and receivers. */
module Channel {
  import opened Prelude

  datatype SendResult = Sent | Full | Disconnected
  datatype Received<+T> = Value(v: T) | Empty | Closed

  /**
   The queues are closed one by one: a dropped handle closes its two halves in turn, and the bulk queue
   can be closed on its own, since a handle dereferences to it.
   */
  datatype Queues<T> = Queues(
    capacity: nat, priorityCapacity: nat, bulk: seq<T>, priority: seq<T>, bulkClosed: bool, priorityClosed: bool)

  function QueueOf<T>(q: Queues<T>, urgent: bool): seq<T> { if urgent then q.priority else q.bulk }

  predicate IsClosed<T>(q: Queues<T>, urgent: bool) { if urgent then q.priorityClosed else q.bulkClosed }

  function CapacityOf<T>(q: Queues<T>, urgent: bool): nat { if urgent then q.priorityCapacity else q.capacity }

  function WithQueue<T>(q: Queues<T>, urgent: bool, s: seq<T>): Queues<T> {
    if urgent then q.(priority := s) else q.(bulk := s)
  }

  function Close<T>(q: Queues<T>, urgent: bool): Queues<T> {
    if urgent then q.(priorityClosed := true) else q.(bulkClosed := true)
  }

  function Put<T>(q: Queues<T>, urgent: bool, msg: T): (Queues<T>, SendResult) {
    if IsClosed(q, urgent) then (q, Disconnected)
    else if |QueueOf(q, urgent)| >= CapacityOf(q, urgent) then (q, Full)
    else (WithQueue(q, urgent, QueueOf(q, urgent) + [msg]), Sent)
  }

  /** `try_recv` on one queue: the only step of a receive that no other handle can interrupt. */
  function TryOne<T>(q: Queues<T>, urgent: bool): (Queues<T>, Received<T>) {
    var s := QueueOf(q, urgent);
    if s == [] then (q, if IsClosed(q, urgent) then Closed else Empty)
    else (WithQueue(q, urgent, s[1..]), Value(s[0]))
  }

  /** A receive that nobody interrupts. Only an empty first queue, not a closed one, lets the second be tried. */
  function TryBoth<T>(q: Queues<T>, priorityFirst: bool): (Queues<T>, Received<T>) {
    var (q1, r) := TryOne(q, priorityFirst);
    if r.Empty? then TryOne(q, !priorityFirst) else (q1, r)
  }

  class PriorityChannel<T> {
    const capacity: nat
    const priorityCapacity: nat
    var bulk: seq<T>
    var priority: seq<T>
    var bulkClosed: bool
    var priorityClosed: bool

    ghost function View(): Queues<T>
      reads this
    {
      Queues(capacity, priorityCapacity, bulk, priority, bulkClosed, priorityClosed)
    }

    /** A bounded queue of capacity 0 is refused by the underlying library. */
    constructor (capacity: nat, priorityCapacity: nat)
      requires capacity > 0 && priorityCapacity > 0
      ensures View() == Queues(capacity, priorityCapacity, [], [], false, false)
    {
      this.capacity, this.priorityCapacity := capacity, priorityCapacity;
      bulk, priority, bulkClosed, priorityClosed := [], [], false, false;
    }

    method TrySend(msg: T) returns (r: SendResult)
      modifies this
      ensures (View(), r) == Put(old(View()), false, msg)
    {
      if bulkClosed {
        return Disconnected;
      }
      if |bulk| >= capacity {
        return Full;
      }
      bulk := bulk + [msg];
      r := Sent;
    }

    method TrySendPriority(msg: T) returns (r: SendResult)
      modifies this
      ensures (View(), r) == Put(old(View()), true, msg)
    {
      if priorityClosed {
        return Disconnected;
      }
      if |priority| >= priorityCapacity {
        return Full;
      }
      priority := priority + [msg];
      r := Sent;
    }

    method TryRecv(urgent: bool) returns (r: Received<T>)
      modifies this
      ensures (View(), r) == TryOne(old(View()), urgent)
    {
      var s := if urgent then priority else bulk;
      if s == [] {
        return if (if urgent then priorityClosed else bulkClosed) then Closed else Empty;
      }
      if urgent {
        priority := s[1..];
      } else {
        bulk := s[1..];
      }
      r := Value(s[0]);
    }

    method CloseQueue(urgent: bool)
      modifies this
      ensures View() == Close(old(View()), urgent)
    {
      if urgent {
        priorityClosed := true;
      } else {
        bulkClosed := true;
      }
    }

    method Len() returns (n: nat)
      ensures n == |bulk| + |priority|
    {
      n := |bulk| + |priority|;
    }
  }

  /** One receiving handle: a receive tries one queue, remembers an `Empty`, and then tries the other. */
  class Receiver<T> {
    const channel: PriorityChannel<T>
    /** Which queue was tried first and found empty and open, while a receive is under way. */
    var pending: Option<bool>

    constructor (channel: PriorityChannel<T>)
      ensures this.channel == channel && pending == None
    {
      this.channel := channel;
      pending := None;
    }

    method TryFirst(priorityFirst: bool) returns (r: Received<T>)
      requires pending.None?
      modifies this, channel
      ensures (channel.View(), r) == TryOne(old(channel.View()), priorityFirst)
      ensures pending == if r.Empty? then Some(priorityFirst) else None
    {
      r := channel.TryRecv(priorityFirst);
      if r.Empty? {
        pending := Some(priorityFirst);
      }
    }

    /** The other queue, in whatever state the handles that ran in between have left it. */
    method TrySecond() returns (r: Received<T>)
      requires pending.Some?
      modifies this, channel
      ensures (channel.View(), r) == TryOne(old(channel.View()), !old(pending).value)
      ensures pending == None
    {
      r := channel.TryRecv(!pending.value);
      pending := None;
    }

    /** The whole receive when no other handle runs in between; `priorityFirst` is the strategy's answer. */
    method TryNextWithStrategy(priorityFirst: bool) returns (r: Received<T>)
      requires pending.None?
      modifies this, channel
      ensures (channel.View(), r) == TryBoth(old(channel.View()), priorityFirst) && pending == None
    {
      r := TryFirst(priorityFirst);
      if r.Empty? {
        r := TrySecond();
      }
    }

    /** `poll_next` of the stream: `Empty` is pending, `Closed` is the end of the stream. */
    method PollNext() returns (r: Received<T>)
      requires pending.None?
      modifies this, channel
      ensures (channel.View(), r) == TryBoth(old(channel.View()), true) && pending == None
    {
      r := TryNextWithStrategy(true);
    }
  }

  /*** Schedules: any interleaving of the queue operations of cloned senders and receivers ***/

  type ReceiverId = nat

  /** `recv` on a receiver goes to the bulk queue alone. */
  datatype Op<T> =
    | Send(urgent: bool, msg: T)
    | First(r: ReceiverId, priorityFirst: bool)
    | Second(r: ReceiverId)
    | RecvBulk
    | CloseOne(urgent: bool)

  /** What was accepted on each queue, what was received and from which queue, and the receives under way. */
  datatype Trace<T> = Trace(
    q: Queues<T>, sentBulk: seq<T>, sentPriority: seq<T>, got: seq<(bool, T)>, pending: map<ReceiverId, bool>)

  /** One queue operation of a receive. */
  function Take<T>(t: Trace<T>, urgent: bool): Trace<T> {
    var (q, r) := TryOne(t.q, urgent);
    if r.Value? then t.(q := q, got := t.got + [(urgent, r.v)]) else t
  }

  /** A handle has one receive under way at a time. */
  function Step<T>(t: Trace<T>, op: Op<T>): Trace<T> {
    match op
    case Send(urgent, msg) =>
      var (q, r) := Put(t.q, urgent, msg);
      if !r.Sent? then t
      else if urgent then t.(q := q, sentPriority := t.sentPriority + [msg])
      else t.(q := q, sentBulk := t.sentBulk + [msg])
    case First(r, priorityFirst) =>
      if r in t.pending then t
      else if TryOne(t.q, priorityFirst).1.Empty? then t.(pending := t.pending[r := priorityFirst])
      else Take(t, priorityFirst)
    case Second(r) =>
      if r in t.pending then Take(t, !t.pending[r]).(pending := t.pending - {r}) else t
    case RecvBulk => Take(t, false)
    case CloseOne(urgent) => t.(q := Close(t.q, urgent))
  }

  function Run<T>(capacity: nat, priorityCapacity: nat, ops: seq<Op<T>>): Trace<T> {
    if ops == [] then Trace(Queues(capacity, priorityCapacity, [], [], false, false), [], [], [], map[])
    else Step(Run(capacity, priorityCapacity, Front(ops)), Last(ops))
  }

  /** The received messages of one queue, in order. */
  function GotFrom<T>(got: seq<(bool, T)>, urgent: bool): seq<T> {
    if got == [] then []
    else if Last(got).0 == urgent then GotFrom(Front(got), urgent) + [Last(got).1]
    else GotFrom(Front(got), urgent)
  }

  lemma GotSnoc<T>(got: seq<(bool, T)>, urgent: bool, msg: T)
    ensures GotFrom(got + [(urgent, msg)], urgent) == GotFrom(got, urgent) + [msg]
    ensures GotFrom(got + [(urgent, msg)], !urgent) == GotFrom(got, !urgent)
  {
    assert Front(got + [(urgent, msg)]) == got;
  }

  /** Nothing is lost, duplicated or reordered within a queue, and no queue exceeds its capacity. */
  ghost predicate Conserved<T>(t: Trace<T>) {
    && t.sentBulk == GotFrom(t.got, false) + t.q.bulk
    && t.sentPriority == GotFrom(t.got, true) + t.q.priority
    && |t.q.bulk| <= t.q.capacity && |t.q.priority| <= t.q.priorityCapacity
  }

  /** Moving the head of a queue to what was received from it keeps their concatenation. */
  lemma TakeHead<T>(got: seq<(bool, T)>, urgent: bool, s: seq<T>)
    requires s != []
    ensures GotFrom(got + [(urgent, s[0])], urgent) + s[1..] == GotFrom(got, urgent) + s
    ensures GotFrom(got + [(urgent, s[0])], !urgent) == GotFrom(got, !urgent)
  {
    GotSnoc(got, urgent, s[0]);
    hide GotFrom;
    assert [s[0]] + s[1..] == s;
    assert GotFrom(got, urgent) + [s[0]] + s[1..] == GotFrom(got, urgent) + ([s[0]] + s[1..]);
  }

  lemma TakeConserves<T>(t: Trace<T>, urgent: bool)
    requires Conserved(t)
    ensures Conserved(Take(t, urgent))
  {
    hide GotFrom;
    if QueueOf(t.q, urgent) != [] {
      TakeHead(t.got, urgent, QueueOf(t.q, urgent));
    }
  }

  lemma StepConserves<T>(t: Trace<T>, op: Op<T>)
    requires Conserved(t)
    ensures Conserved(Step(t, op))
  {
    hide GotFrom;
    match op
    case Send(urgent, msg) =>
      if Put(t.q, urgent, msg).1.Sent? {
        var s := QueueOf(t.q, urgent);
        assert GotFrom(t.got, urgent) + (s + [msg]) == GotFrom(t.got, urgent) + s + [msg];
      }
    case First(r, priorityFirst) => TakeConserves(t, priorityFirst);
    case Second(r) => if r in t.pending { TakeConserves(t, !t.pending[r]); }
    case RecvBulk => TakeConserves(t, false);
    case CloseOne(urgent) =>
  }

  /**
   Channel conservation: under any interleaving of sends, closings and the single queue operations of any
   number of receivers, what was accepted on each queue is what was received from it followed by what is
   still queued.  So the received sequence merges a prefix of the bulk sends and a prefix of the priority sends.
   */
  lemma {:induction false} ScheduleConserves<T>(capacity: nat, priorityCapacity: nat, ops: seq<Op<T>>)
    ensures Conserved(Run(capacity, priorityCapacity, ops))
  {
    if ops != [] {
      ScheduleConserves(capacity, priorityCapacity, Front(ops));
      StepConserves(Run(capacity, priorityCapacity, Front(ops)), Last(ops));
    }
  }

  /*** When a send is accepted and what a receive answers ***/

  /** How many of the messages accepted on a queue have not been received from it. */
  function Outstanding<T>(t: Trace<T>, urgent: bool): int {
    |SentOn(t, urgent)| - |GotFrom(t.got, urgent)|
  }

  function SentOn<T>(t: Trace<T>, urgent: bool): seq<T> { if urgent then t.sentPriority else t.sentBulk }

  /** A queue is closed exactly when it was closed on its own, or as a half of a handle; its capacity never changes. */
  lemma {:induction false} ClosedExactly<T(!new)>(capacity: nat, priorityCapacity: nat, ops: seq<Op<T>>, urgent: bool)
    ensures var q := Run(capacity, priorityCapacity, ops).q;
            && (IsClosed(q, urgent) <==> CloseOne(urgent) in ops)
            && CapacityOf(q, urgent) == if urgent then priorityCapacity else capacity
  {
    if ops != [] {
      ClosedExactly(capacity, priorityCapacity, Front(ops), urgent);
      StepCloses(Run(capacity, priorityCapacity, Front(ops)), Last(ops), urgent);
      hide Step, IsClosed, CapacityOf;
      assert ops == Front(ops) + [Last(ops)];
    }
  }

  lemma StepCloses<T>(t: Trace<T>, op: Op<T>, urgent: bool)
    ensures IsClosed(Step(t, op).q, urgent) <==> IsClosed(t.q, urgent) || op == CloseOne(urgent)
    ensures CapacityOf(Step(t, op).q, urgent) == CapacityOf(t.q, urgent)
  {
  }

  /**
   Over any schedule a send is refused as disconnected exactly when its queue was closed before, and as full
   exactly when the queue is open and as many messages as its capacity are accepted and not yet received; it is
   accepted in every other case, and then it is the newest of its queue and no other queue changes.
   */
  lemma SendExactly<T(!new)>(capacity: nat, priorityCapacity: nat, ops: seq<Op<T>>, urgent: bool, msg: T)
    ensures var t := Run(capacity, priorityCapacity, ops);
            var t', r := Step(t, Send(urgent, msg)), Put(t.q, urgent, msg).1;
            var room := if urgent then priorityCapacity else capacity;
            && (r.Disconnected? <==> CloseOne(urgent) in ops)
            && (r.Full? <==> CloseOne(urgent) !in ops && Outstanding(t, urgent) == room)
            && (r.Sent? <==> CloseOne(urgent) !in ops && Outstanding(t, urgent) < room)
            && SentOn(t', urgent) == (if r.Sent? then SentOn(t, urgent) + [msg] else SentOn(t, urgent))
            && SentOn(t', !urgent) == SentOn(t, !urgent) && t'.got == t.got && t'.pending == t.pending
  {
    var t := Run(capacity, priorityCapacity, ops);
    ClosedExactly(capacity, priorityCapacity, ops, urgent);
    ScheduleConserves(capacity, priorityCapacity, ops);
    hide Run, GotFrom;
    assert |QueueOf(t.q, urgent)| == Outstanding(t, urgent);
  }

  /**
   And trying a queue hands out the oldest message accepted on it and not yet received; without one it is empty
   while the queue is open, and closed after.
   */
  lemma TryExactly<T(!new)>(capacity: nat, priorityCapacity: nat, ops: seq<Op<T>>, urgent: bool)
    ensures var t := Run(capacity, priorityCapacity, ops);
            var r := TryOne(t.q, urgent).1;
            && (r.Value? <==> Outstanding(t, urgent) > 0)
            && (r.Value? ==> r.v == SentOn(t, urgent)[|GotFrom(t.got, urgent)|])
            && (r.Closed? <==> Outstanding(t, urgent) == 0 && CloseOne(urgent) in ops)
            && (r.Empty? <==> Outstanding(t, urgent) == 0 && CloseOne(urgent) !in ops)
  {
    var t := Run(capacity, priorityCapacity, ops);
    ClosedExactly(capacity, priorityCapacity, ops, urgent);
    ScheduleConserves(capacity, priorityCapacity, ops);
    hide Run, GotFrom;
    assert |QueueOf(t.q, urgent)| == Outstanding(t, urgent);
  }

  /*** What priority first means between receivers ***/

  /** At step `j` receiver `r` found its first queue empty and open, and it has done nothing since. */
  ghost predicate ObservedAt<T>(capacity: nat, priorityCapacity: nat, ops: seq<Op<T>>, r: ReceiverId,
                                priorityFirst: bool, j: nat) {
    && j < |ops| && ops[j] == First(r, priorityFirst)
    && (var q := Run(capacity, priorityCapacity, ops[..j]).q;
        QueueOf(q, priorityFirst) == [] && !IsClosed(q, priorityFirst))
    && forall i :: j < i < |ops| ==> ops[i] != Second(r)
  }

  lemma PendingStep<T>(t: Trace<T>, op: Op<T>, r: ReceiverId)
    requires r in Step(t, op).pending
    ensures var pf := Step(t, op).pending[r];
            || (r in t.pending && t.pending[r] == pf && op != Second(r))
            || (op == First(r, pf) && QueueOf(t.q, pf) == [] && !IsClosed(t.q, pf))
  {
  }

  lemma ObservedStays<T>(capacity: nat, priorityCapacity: nat, ops: seq<Op<T>>, r: ReceiverId, priorityFirst: bool,
                         j: nat)
    requires ops != [] && ObservedAt(capacity, priorityCapacity, Front(ops), r, priorityFirst, j) &&
        Last(ops) != Second(r)
    ensures ObservedAt(capacity, priorityCapacity, ops, r, priorityFirst, j)
  {
    assert Front(ops)[..j] == ops[..j];
    forall i | j < i < |ops|
      ensures ops[i] != Second(r)
    {
      assert i < |ops| - 1 ==> ops[i] == Front(ops)[i];
    }
  }

  /** A receive under way rests on an earlier observation. */
  lemma {:induction false} PendingWasObserved<T>(capacity: nat, priorityCapacity: nat, ops: seq<Op<T>>, r: ReceiverId)
    returns (j: nat)
    requires r in Run(capacity, priorityCapacity, ops).pending
    ensures ObservedAt(capacity, priorityCapacity, ops, r, Run(capacity, priorityCapacity, ops).pending[r], j)
  {
    assert ops != [];
    var t, op := Run(capacity, priorityCapacity, Front(ops)), Last(ops);
    PendingStep(t, op, r);
    hide Step, QueueOf, IsClosed;
    if r in t.pending && op != Second(r) {
      j := PendingWasObserved(capacity, priorityCapacity, Front(ops), r);
      ObservedStays(capacity, priorityCapacity, ops, r, t.pending[r], j);
    } else {
      j := |ops| - 1;
      assert ops[..j] == Front(ops);
    }
  }

  /** The step hands out a bulk message as the second half of a priority-first receive. */
  ghost predicate HandsOutBulk<T>(t: Trace<T>, op: Op<T>) {
    op.Second? && op.r in t.pending && t.pending[op.r] && t.q.bulk != []
  }

  /**
   A priority-first receive hands out a bulk message only after it has observed the priority queue empty
   and open; and that bulk message is the oldest one.
   */
  lemma PriorityFirst<T>(capacity: nat, priorityCapacity: nat, ops: seq<Op<T>>, op: Op<T>) returns (j: nat)
    requires HandsOutBulk(Run(capacity, priorityCapacity, ops), op)
    ensures ObservedAt(capacity, priorityCapacity, ops, op.r, true, j)
    ensures var t := Run(capacity, priorityCapacity, ops); Step(t, op).got == t.got + [(false, t.q.bulk[0])]
  {
    j := PendingWasObserved(capacity, priorityCapacity, ops, op.r);
  }

  /** The messages of a run from step `j` on. */
  function Since<T>(s: seq<T>, earlier: nat): nat
    requires earlier <= |s|
  {
    |s| - earlier
  }

  lemma {:induction false} OnlyGrows<T>(capacity: nat, priorityCapacity: nat, ops: seq<Op<T>>, j: nat)
    requires j <= |ops|
    ensures var earlier, t := Run(capacity, priorityCapacity, ops[..j]), Run(capacity, priorityCapacity, ops);
            |earlier.sentPriority| <= |t.sentPriority| && |GotFrom(earlier.got, true)| <= |GotFrom(t.got, true)|
    decreases |ops|
  {
    if j == |ops| {
      assert ops[..j] == ops;
    } else {
      assert Front(ops)[..j] == ops[..j];
      OnlyGrows(capacity, priorityCapacity, Front(ops), j);
      StepGrows(Run(capacity, priorityCapacity, Front(ops)), Last(ops));
    }
  }

  lemma StepGrows<T>(t: Trace<T>, op: Op<T>)
    ensures |t.sentPriority| <= |Step(t, op).sentPriority|
    ensures |GotFrom(t.got, true)| <= |GotFrom(Step(t, op).got, true)|
  {
    if Step(t, op).got != t.got {
      var urgent, msg := Last(Step(t, op).got).0, Last(Step(t, op).got).1;
      assert Step(t, op).got == t.got + [(urgent, msg)];
      GotSnoc(t.got, urgent, msg);
    }
  }

  /**
   The stronger promise, that the priority queue is still empty when the bulk message is handed out, holds
   exactly when every urgent message accepted since the observation has been received by another handle.
   */
  lemma StillEmptyExactly<T>(capacity: nat, priorityCapacity: nat, ops: seq<Op<T>>, r: ReceiverId, j: nat)
    requires ObservedAt(capacity, priorityCapacity, ops, r, true, j)
    ensures var seen, t := Run(capacity, priorityCapacity, ops[..j]), Run(capacity, priorityCapacity, ops);
            && |seen.sentPriority| <= |t.sentPriority| && |GotFrom(seen.got, true)| <= |GotFrom(t.got, true)|
            && (t.q.priority == [] <==>
                Since(t.sentPriority, |seen.sentPriority|) == Since(GotFrom(t.got, true), |GotFrom(seen.got, true)|))
  {
    ScheduleConserves(capacity, priorityCapacity, ops[..j]);
    ScheduleConserves(capacity, priorityCapacity, ops);
    OnlyGrows(capacity, priorityCapacity, ops, j);
  }

  lemma RunSnoc<T>(capacity: nat, priorityCapacity: nat, ops: seq<Op<T>>, op: Op<T>)
    ensures Run(capacity, priorityCapacity, ops + [op]) == Step(Run(capacity, priorityCapacity, ops), op)
  {
    assert Front(ops + [op]) == ops;
  }

  /** It can fail: an urgent message sent between the two halves of a receive is overtaken by a bulk message. */
  lemma BulkOvertakes()
    ensures var ops := [] + [Send(false, 1)] + [First(0, true)] + [Send(true, 42)];
            var t: Trace<int> := Run(1, 1, ops);
            && HandsOutBulk(t, Second(0)) && t.q.priority == [42]
            && Step(t, Second(0)).got == [(false, 1)] && Step(t, Second(0)).q.priority == [42]
  {
    var o1, o2, o3: Op<int> := Send(false, 1), First(0, true), Send(true, 42);
    RunSnoc(1, 1, [], o1);
    RunSnoc(1, 1, [] + [o1], o2);
    RunSnoc(1, 1, [] + [o1] + [o2], o3);
    var t0: Trace<int> := Run(1, 1, []);
    var t1 := Step(t0, o1);
    assert t1.q.bulk == [1] && t1.q.priority == [];
    var t2 := Step(t1, o2);
    assert t2.pending == map[0 := true] && t2.q == t1.q;
    var t3 := Step(t2, o3);
    assert t3.q.priority == [42] && t3.q.bulk == [1] && t3.got == [];
  }

  /** A receive that nobody interrupts does keep the stronger promise. */
  lemma UninterruptedPriorityFirst<T>(q: Queues<T>)
    ensures var (q', r) := TryBoth(q, true);
            && (q'.bulk != q.bulk ==> q.priority == [] && !q.priorityClosed)
            && (!r.Value? <==> q.priority == [] && (q.priorityClosed || q.bulk == []))
  {
  }

  predicate BulkOnly<T>(ops: seq<Op<T>>) { forall i :: 0 <= i < |ops| ==> !ops[i].First? && !ops[i].Second? }

  /** Consumers that only call `recv` never see a priority message. */
  lemma {:induction false} RecvMissesPriority<T>(capacity: nat, priorityCapacity: nat, ops: seq<Op<T>>)
    requires BulkOnly(ops)
    ensures GotFrom(Run(capacity, priorityCapacity, ops).got, true) == []
  {
    if ops != [] {
      RecvMissesPriority(capacity, priorityCapacity, Front(ops));
      var t := Run(capacity, priorityCapacity, Front(ops));
      if Last(ops).RecvBulk? && t.q.bulk != [] {
        GotSnoc(t.got, false, t.q.bulk[0]);
      }
    }
  }

  /*** A last receiver emptying the queues ***/

  /** Receiving until the queues report `Empty` or `Closed`: the messages handed out and what is left. */
  function Drain<T>(q: Queues<T>, priorityFirst: bool): (seq<T>, Queues<T>)
    decreases |q.bulk| + |q.priority|
  {
    var (q', r) := TryBoth(q, priorityFirst);
    if !r.Value? then ([], q')
    else
      var (rest, end) := Drain(q', priorityFirst);
      ([r.v] + rest, end)
  }

  /** One message while the first queue is open: the head of that queue, or of the other one. */
  lemma OpenTake<T>(q: Queues<T>, priorityFirst: bool)
    requires !IsClosed(q, priorityFirst)
    ensures var (q', r) := TryBoth(q, priorityFirst);
            var first, second := QueueOf(q, priorityFirst), QueueOf(q, !priorityFirst);
            && q' == q.(bulk := q'.bulk, priority := q'.priority)
            && (first + second == [] <==> !r.Value?)
            && (r.Value? ==>
                first + second == [r.v] + (QueueOf(q', priorityFirst) + QueueOf(q', !priorityFirst)))
            && (!r.Value? ==> q' == q)
  {
    var first, second := QueueOf(q, priorityFirst), QueueOf(q, !priorityFirst);
    if first != [] {
      assert first + second == [first[0]] + (first[1..] + second);
    } else if second != [] {
      assert first + second == [second[0]] + (first + second[1..]);
    }
  }

  /** While the first queue is open a drain hands out that queue and then the other one. */
  lemma {:induction false} DrainOpen<T>(q: Queues<T>, priorityFirst: bool)
    requires !IsClosed(q, priorityFirst)
    ensures Drain(q, priorityFirst).0 == QueueOf(q, priorityFirst) + QueueOf(q, !priorityFirst)
    ensures Drain(q, priorityFirst).1 == q.(bulk := [], priority := [])
    decreases |q.bulk| + |q.priority|
  {
    var (q', r) := TryBoth(q, priorityFirst);
    OpenTake(q, priorityFirst);
    if r.Value? {
      DrainOpen(q', priorityFirst);
    }
  }

  /**
   Once the first queue is closed a drain hands out that queue only: the messages of the other queue stay
   where they are, whether it is closed or not.  So nothing is lost exactly when that queue was empty.
   */
  lemma {:induction false} DrainClosed<T>(q: Queues<T>, priorityFirst: bool)
    requires IsClosed(q, priorityFirst)
    ensures Drain(q, priorityFirst).0 == QueueOf(q, priorityFirst)
    ensures QueueOf(Drain(q, priorityFirst).1, !priorityFirst) == QueueOf(q, !priorityFirst)
    ensures (Drain(q, priorityFirst).1.bulk == [] && Drain(q, priorityFirst).1.priority == []) <==>
            QueueOf(q, !priorityFirst) == []
    decreases |q.bulk| + |q.priority|
  {
    var (q', r) := TryBoth(q, priorityFirst);
    if r.Value? {
      DrainClosed(q', priorityFirst);
    }
  }
}
